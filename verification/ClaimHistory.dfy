/**
 The append-only history of expenses over the runs of ClaimProtocol: an expense's revisions
 followed by its head list every state it ever had, up to renaming a claimed placeholder to its
 claimer.
 */
module ClaimHistory {
  import opened Text
  import opened Sums
  import opened Splits
  import opened Balances
  import opened Claim
  import opened ClaimProtocol
  import opened ClaimLocks
  import opened ClaimLedger

  // ---------- equality up to claims ----------

  /** The splits with every claim of the log applied. */
  function Renamed(splits: map<UserId, int>, claims: seq<(UserId, UserId)>): map<UserId, int> {
    if claims == [] then splits
    else
      var k := |claims| - 1;
      ClaimSplits(Renamed(splits, claims[..k]), claims[k].0, claims[k].1)
  }

  predicate Same(a: Head, b: Head, claims: seq<(UserId, UserId)>) {
    a.fields == b.fields && Renamed(a.splits, claims) == Renamed(b.splits, claims)
  }

  lemma RenamedSnoc(splits: map<UserId, int>, claims: seq<(UserId, UserId)>, p: UserId, c: UserId)
    ensures Renamed(splits, claims + [(p, c)]) == ClaimSplits(Renamed(splits, claims), p, c)
  {
    hide ClaimSplits;
    assert (claims + [(p, c)])[..|claims|] == claims;
  }

  lemma SameGrows(a: Head, b: Head, claims: seq<(UserId, UserId)>, p: UserId, c: UserId)
    requires Same(a, b, claims)
    ensures Same(a, b, claims + [(p, c)])
  {
    hide Renamed;
    RenamedSnoc(a.splits, claims, p, c);
    RenamedSnoc(b.splits, claims, p, c);
  }

  /** Splits without a claimed placeholder are not renamed. */
  lemma {:induction false} NothingToRename(splits: map<UserId, int>, claims: seq<(UserId, UserId)>)
    requires forall k :: 0 <= k < |claims| ==> claims[k].0 !in splits
    ensures Renamed(splits, claims) == splits
    decreases |claims|
  {
    if claims != [] {
      NothingToRename(splits, claims[..|claims| - 1]);
    }
  }

  /** A claim leaves an expense the same, up to that claim. */
  lemma ClaimedIsSame(head: Head, claims: seq<(UserId, UserId)>, p: UserId, c: UserId)
    requires forall k :: 0 <= k < |claims| ==> claims[k].0 !in head.splits && claims[k].0 != c
    requires p != c
    ensures Same(head.(splits := ClaimSplits(head.splits, p, c)), head, claims + [(p, c)])
  {
    hide Renamed;
    var claimed := ClaimSplits(head.splits, p, c);
    NothingToRename(head.splits, claims);
    RenamedSnoc(head.splits, claims, p, c);
    NothingToRename(claimed, claims + [(p, c)]);
  }

  // ---------- one expense's record ----------

  /** The states edits recorded, in order. */
  function EditsOf(revisions: seq<Revision>): seq<Head> {
    if revisions == [] then []
    else
      var k := |revisions| - 1;
      EditsOf(revisions[..k]) + if revisions[k].Edited? then [revisions[k].before] else []
  }

  lemma EditsSnoc(revisions: seq<Revision>, r: Revision)
    ensures EditsOf(revisions + [r]) == EditsOf(revisions) + if r.Edited? then [r.before] else []
  {
    assert (revisions + [r])[..|revisions|] == revisions;
  }

  /** The edits' revisions and then the head: what the record says the expense has been. */
  function Listing(ex: Expense): (states: seq<Head>)
    ensures states != []
  {
    EditsOf(ex.revisions) + [ex.head]
  }

  ghost predicate AllSame(a: seq<Head>, b: seq<Head>, claims: seq<(UserId, UserId)>) {
    |a| == |b| && forall k :: 0 <= k < |a| ==> Same(a[k], b[k], claims)
  }

  /** Each past state is what was written by the edits counted with it, and they are in order. */
  ghost predicate PastOk(past: seq<(nat, Head)>, written: seq<Head>, claims: seq<(UserId, UserId)>) {
    && (forall i :: 0 <= i < |past| ==> past[i].0 < |written| && Same(past[i].1, written[past[i].0], claims))
    && (forall i, j :: 0 <= i < j < |past| ==> past[i].0 <= past[j].0)
  }

  ghost predicate ExpenseOk(ex: Expense, claims: seq<(UserId, UserId)>) {
    && AllSame(Listing(ex), ex.written, claims) && PastOk(ex.past, ex.written, claims)
    && ex.past != [] && ex.past[|ex.past| - 1] == (|ex.written| - 1, ex.head)
  }

  lemma AllSameGrows(a: seq<Head>, b: seq<Head>, claims: seq<(UserId, UserId)>, p: UserId, c: UserId)
    requires AllSame(a, b, claims)
    ensures AllSame(a, b, claims + [(p, c)])
  {
    hide Same;
    forall k | 0 <= k < |a| { SameGrows(a[k], b[k], claims, p, c); }
  }

  lemma PastGrows(past: seq<(nat, Head)>, written: seq<Head>, claims: seq<(UserId, UserId)>, p: UserId, c: UserId)
    requires PastOk(past, written, claims)
    ensures PastOk(past, written, claims + [(p, c)])
  {
    hide Same;
    forall i | 0 <= i < |past| { SameGrows(past[i].1, written[past[i].0], claims, p, c); }
  }

  lemma CreatedOk(head: Head, claims: seq<(UserId, UserId)>)
    ensures ExpenseOk(Expense(head, [], [head], [(0, head)]), claims)
  {
    hide Renamed;
    assert EditsOf([]) == [];
  }

  /** An edit whose snapshot is the latest state, up to claims made since. */
  lemma EditedOk(ex: Expense, head: Head, before: Head, claims: seq<(UserId, UserId)>)
    requires ExpenseOk(ex, claims) && Same(before, ex.written[|ex.written| - 1], claims)
    ensures ExpenseOk(Expense(head, ex.revisions + [Edited(before)], ex.written + [head],
            ex.past + [(|ex.written|, head)]), claims)
  {
    hide Renamed, EditsOf;
    EditsSnoc(ex.revisions, Edited(before));
    assert |EditsOf(ex.revisions)| + 1 == |ex.written|;
    forall k | 0 <= k < |ex.written|
      ensures Same((EditsOf(ex.revisions) + [before])[k], ex.written[k], claims)
    {
      assert k < |EditsOf(ex.revisions)| ==> Listing(ex)[k] == EditsOf(ex.revisions)[k];
    }
  }

  /** A claim's commit on one expense. */
  lemma SweptOk(tx: Tx, e: nat, ex: Expense, claims: seq<(UserId, UserId)>, p: UserId, c: UserId)
    requires ExpenseOk(ex, claims) && tx.Accepting? && tx.target == Some(p) && tx.user == c
    requires Swept(tx, e, ex.head.splits) == ClaimSplits(ex.head.splits, p, c)
    requires Same(ex.head.(splits := ClaimSplits(ex.head.splits, p, c)), ex.head, claims + [(p, c)])
    ensures ExpenseOk(SweptExpense(tx, e, ex), claims + [(p, c)])
  {
    hide Renamed, EditsOf, ClaimSplits, Swept;
    var after, claims' := SweptExpense(tx, e, ex), claims + [(p, c)];
    AllSameGrows(Listing(ex), ex.written, claims, p, c);
    PastGrows(ex.past, ex.written, claims, p, c);
    if e in tx.folds { EditsSnoc(ex.revisions, Folded(tx.folds[e])); }
    var n := |ex.written| - 1;
    assert Listing(ex)[n] == ex.head;
    forall k | 0 <= k < |ex.written|
      ensures Same(Listing(after)[k], ex.written[k], claims')
    {
      assert Same(Listing(ex)[k], ex.written[k], claims');
      assert k < n ==> Listing(after)[k] == Listing(ex)[k];
    }
  }

  // ---------- all runs ----------

  /** The record of every expense, and the snapshot of every open edit. */
  ghost predicate Recorded(s: State) {
    && (forall e :: e in s.expenses ==> ExpenseOk(s.expenses[e], s.claims))
    && (forall t :: t in s.txns ==> EditOk(s.expenses, s.claims, s.txns[t]))
  }

  ghost predicate EditOk(expenses: Expenses, claims: seq<(UserId, UserId)>, tx: Tx) {
    tx.Posting? && tx.edit.Some? ==>
      var (e, before) := tx.edit.value;
      e in expenses && expenses[e].written != [] && Same(before, expenses[e].written[|expenses[e].written| - 1], claims)
  }

  lemma HeadLatest(ex: Expense, claims: seq<(UserId, UserId)>)
    requires ExpenseOk(ex, claims)
    ensures ex.written != [] && Same(ex.head, ex.written[|ex.written| - 1], claims)
  {
    hide Renamed, EditsOf;
    assert Listing(ex)[|ex.written| - 1] == ex.head;
  }

  lemma BeginEditRecorded(s: State, t: nat, e: nat, editor: UserId)
    requires Recorded(s) && CanEdit(s, t, e, editor)
    ensures Recorded(SetTx(s, t, Posting({}, Some((e, s.expenses[e].head)))))
  {
    hide ExpenseOk, Same;
    HeadLatest(s.expenses[e], s.claims);
  }

  lemma PostRecorded(s: State, t: nat, e: nat, note: Note, input: SplitInput)
    requires Inv(s) && Recorded(s) && CanPost(s, t, e, note, input)
    ensures Recorded(s.(expenses := s.expenses[e := PostedExpense(s, t, e, note, input)], txns := s.txns - {t}))
  {
    hide ExpenseOk, Same, TxOk, RowsOk, MembersOk, InvitesOk, Valid, SplitOf, Writes;
    assert EditOk(s.expenses, s.claims, s.txns[t]);
    if e in s.expenses {
      EditedOk(s.expenses[e], PostedHead(note, input), s.txns[t].edit.value.1, s.claims);
    } else {
      CreatedOk(PostedHead(note, input), s.claims);
    }
    forall t' | t' in s.txns && t' != t
      ensures EditOk(s.expenses[e := PostedExpense(s, t, e, note, input)], s.claims, s.txns[t'])
    {
      assert EditOk(s.expenses, s.claims, s.txns[t']) && Compatible(s.txns[t], s.txns[t']);
    }
  }

  /** The claimer of an open claim is never a claimed placeholder, nor is anyone with a split. */
  lemma NoneClaimed(s: State, t: nat, e: nat, k: nat)
    requires Inv(s) && ClaimsOk(s.members, s.claims) && SweptClean(s)
    requires t in s.txns && s.txns[t].Accepting? && e in s.expenses && k < |s.claims|
    ensures s.claims[k].0 !in s.expenses[e].head.splits && s.claims[k].0 != s.txns[t].user
  {
    hide RowsOk, Compatible, InvitesOk;
    TargetIsNobody(s, t);
    assert s.claims[k].0 in s.expenses[e].head.splits ==> e in Holding(s.expenses, s.claims[k].0);
    assert MemberOk(s.accounts, s.claims[k].0, s.members[s.claims[k].0]);
    assert Holding(s.expenses, s.claims[k].0) != {} ==> Unclaimed(s.members, s.claims[k].0);
  }

  lemma FinishExpenseOk(s: State, t: nat, e: nat)
    requires Inv(s) && AllExact(s) && ClaimsOk(s.members, s.claims) && SweptClean(s) && Recorded(s)
    requires Enabled(s, Finish(t)) && s.txns[t].target.Some? && e in s.expenses
    ensures ExpenseOk(FinishStep(s, t).expenses[e], FinishStep(s, t).claims)
  {
    hide Inv, AllExact, ClaimsOk, SweptClean, ClaimSplits, Swept, Same, EditOk, ExpenseOk, MembersAfter;
    var tx := s.txns[t];
    TargetIsNobody(s, t);
    FinishIsClaim(s, t, e);
    forall k | 0 <= k < |s.claims| { NoneClaimed(s, t, e, k); }
    ClaimedIsSame(s.expenses[e].head, s.claims, tx.target.value, tx.user);
    SweptOk(tx, e, s.expenses[e], s.claims, tx.target.value, tx.user);
  }

  lemma EditOkSwept(s: State, tx: Tx, edit: Tx)
    requires tx.Accepting? && tx.target.Some? && EditOk(s.expenses, s.claims, edit)
    ensures EditOk(SweptExpenses(tx, s.expenses), s.claims + [(tx.target.value, tx.user)], edit)
  {
    hide Same, Swept;
    if edit.Posting? && edit.edit.Some? {
      var (e, before) := edit.edit.value;
      var written := s.expenses[e].written;
      SameGrows(before, written[|written| - 1], s.claims, tx.target.value, tx.user);
    }
  }

  lemma FinishRecorded(s: State, t: nat)
    requires Inv(s) && AllExact(s) && ClaimsOk(s.members, s.claims) && SweptClean(s) && Recorded(s)
    requires Enabled(s, Finish(t))
    ensures Recorded(FinishStep(s, t))
  {
    hide Inv, AllExact, ClaimsOk, SweptClean, EditOk, ExpenseOk, MembersAfter, SweptExpense;
    var tx := s.txns[t];
    if tx.target.Some? {
      forall e | e in s.expenses { FinishExpenseOk(s, t, e); }
      forall t' | t' in s.txns { EditOkSwept(s, tx, s.txns[t']); }
    }
  }

  lemma RecordedStep(s: State, ev: Event)
    requires Inv(s) && AllExact(s) && ClaimsOk(s.members, s.claims) && SweptClean(s) && Recorded(s)
    requires Enabled(s, ev)
    ensures Recorded(Step(s, ev))
  {
    hide Inv, AllExact, ClaimsOk, SweptClean, ExpenseOk, Same, FinishStep, PostedExpense, CanPost, CanMint, CanEdit,
         CanJoin, CanAccept, CanAdd, CanRekey, Both, Claimable, CanLock;
    match ev
    case Post(t, e, note, input) => PostRecorded(s, t, e, note, input);
    case Finish(t) => FinishRecorded(s, t);
    case BeginEdit(t, e, editor) => BeginEditRecorded(s, t, e, editor);
    case _ =>
  }

  lemma {:induction false} RecordedRun(s: State, es: seq<Event>)
    requires Inv(s) && AllExact(s) && ClaimsOk(s.members, s.claims) && SweptClean(s) && Recorded(s)
    requires Trace(s, es) && Solo(s, es)
    ensures Recorded(After(s, es))
    decreases |es|
  {
    hide Inv, AllExact, Apart, Enabled, Step, ClaimsOk, SweptClean, Recorded;
    if es != [] {
      InvStep(s, es[0]);
      ExactStep(s, es[0]);
      ClaimsStep(s, es[0]);
      SweptStep(s, es[0]);
      RecordedStep(s, es[0]);
      RecordedRun(Step(s, es[0]), es[1..]);
    }
  }

  /**
   The revisions left by edits, followed by the head, list every state the expense ever had, in
   order, up to the claims: the i-th past state is entry past[i].0 of the list, those entries
   never go back, and the last is the head itself.
   */
  lemma RevisionsListEveryState(s: State, es: seq<Event>, e: nat)
    requires Start(s) && Trace(s, es) && Solo(s, es) && e in After(s, es).expenses
    ensures var end := After(s, es);
            var ex := end.expenses[e];
            && (forall i :: 0 <= i < |ex.past| ==>
                  ex.past[i].0 < |Listing(ex)| && Same(ex.past[i].1, Listing(ex)[ex.past[i].0], end.claims))
            && (forall i, j :: 0 <= i < j < |ex.past| ==> ex.past[i].0 <= ex.past[j].0)
            && ex.past != [] && ex.past[|ex.past| - 1] == (|Listing(ex)| - 1, ex.head)
  {
    hide Enabled, Step, Start, Same, Inv, ClaimsOk, SweptClean, AllExact, EditsOf;
    CleanStart(s);
    StartConserved(s);
    StartRecorded(s);
    RecordedRun(s, es);
    var ex, claims := After(s, es).expenses[e], After(s, es).claims;
    forall i | 0 <= i < |ex.past|
      ensures Same(ex.past[i].1, Listing(ex)[ex.past[i].0], claims)
    {
      SameVia(ex.past[i].1, ex.written[ex.past[i].0], Listing(ex)[ex.past[i].0], claims);
    }
  }

  lemma SameVia(a: Head, b: Head, c: Head, claims: seq<(UserId, UserId)>)
    requires Same(a, b, claims) && Same(c, b, claims)
    ensures Same(a, c, claims)
  {
  }

  lemma StartRecorded(s: State)
    requires Start(s)
    ensures Recorded(s)
  {
  }

  // ---------- the revisions left by claims ----------

  /** The expense fields a claim read first are still those of the rows. */
  predicate Settled(expenses: Expenses, tx: Tx) {
    tx.Accepting? && tx.stage == Looked ==>
      forall e :: e in tx.folds && e in expenses ==> tx.folds[e].fields == expenses[e].head.fields
  }

  ghost predicate AllSettled(s: State) {
    forall t :: t in s.txns ==> Settled(s.expenses, s.txns[t])
  }

  /** An edit commits on an expense that some claim is about to fold, between that claim's two SELECTs. */
  predicate Disturbs(s: State, ev: Event) {
    && ev.Post?
    && exists t :: t in s.txns && s.txns[t].Accepting? && s.txns[t].stage == Looked && ev.expense in s.txns[t].folds
  }

  /** No edit of an expense to fold commits between the two SELECTs of a claim. */
  ghost predicate Calm(s: State, es: seq<Event>)
    requires Trace(s, es)
    decreases |es|
  {
    es != [] ==> !Disturbs(s, es[0]) && Calm(Step(s, es[0]), es[1..])
  }

  lemma PostSettled(s: State, t: nat, e: nat, note: Note, input: SplitInput)
    requires CanPost(s, t, e, note, input) && AllSettled(s) && !Disturbs(s, Post(t, e, note, input))
    ensures AllSettled(s.(expenses := s.expenses[e := PostedExpense(s, t, e, note, input)], txns := s.txns - {t}))
  {
    hide CanPost, PostedExpense;
    forall t' | t' in s.txns && t' != t
      ensures Settled(s.expenses[e := PostedExpense(s, t, e, note, input)], s.txns[t'])
    {
      assert Settled(s.expenses, s.txns[t']);
    }
  }

  lemma FinishSettled(s: State, t: nat)
    requires Enabled(s, Finish(t)) && AllSettled(s)
    ensures AllSettled(FinishStep(s, t))
  {
    hide Swept, MembersAfter;
  }

  lemma LookSettled(s: State, t: nat)
    requires ClaimAt(s, t, Joined) && AllSettled(s)
    ensures AllSettled(SetTx(s, t, LookedTx(s, t)))
  {
    hide Holding;
  }

  /** The other steps of an accept up to its commit. */
  lemma AcceptSettled(s: State, ev: Event)
    requires Enabled(s, ev) && AllSettled(s)
    requires ev.LockTarget? || ev.Join? || ev.Snap? || ev.FindShares? || ev.AddShares? || ev.DeleteShares? || ev.Rekey?
    ensures AllSettled(Step(s, ev))
  {
    hide CanLock, Claimable, IsActive, Both, Holding, AllSettled;
    SetTxSettled(s, ev.t, Step(s, ev).txns[ev.t]);
  }

  lemma SetTxSettled(s: State, t: nat, tx: Tx)
    requires AllSettled(s) && (tx.Accepting? ==> tx.stage != Looked)
    ensures AllSettled(SetTx(s, t, tx))
  {
  }

  /** An event that does not disturb a claim leaves what every claim has read as it is. */
  lemma SettledStep(s: State, ev: Event)
    requires Enabled(s, ev) && AllSettled(s) && !Disturbs(s, ev)
    ensures AllSettled(Step(s, ev))
  {
    hide FinishStep, PostedExpense, CanPost, CanMint, CanEdit, CanAccept, CanJoin, CanAdd, CanRekey, CanLock,
         CanShare, Claimable, IsActive, LookedTx, SnappedTx, RekeyedTx, Both, Holding, Disturbs;
    match ev
    case Post(t, e, note, input) => PostSettled(s, t, e, note, input);
    case Finish(t) => FinishSettled(s, t);
    case Look(t) => LookSettled(s, t);
    case LockTarget(t) => AcceptSettled(s, ev);
    case Join(t) => AcceptSettled(s, ev);
    case Snap(t) => AcceptSettled(s, ev);
    case FindShares(t) => AcceptSettled(s, ev);
    case AddShares(t) => AcceptSettled(s, ev);
    case DeleteShares(t) => AcceptSettled(s, ev);
    case Rekey(t) => AcceptSettled(s, ev);
    case _ =>
  }

  // ---------- one claim, between its two SELECTs ----------

  function PostedFields(note: Note, input: SplitInput): Fields {
    Fields(note.description, input.totalCents, note.currency, input.paidBy, note.category, note.isStaple)
  }

  /** The fields the last edit of the expense among the events wrote, or those before. */
  function LastFields(es: seq<Event>, e: nat, before: Fields): Fields
    decreases |es|
  {
    if es == [] then before
    else LastFields(es[1..], e, if es[0].Post? && es[0].expense == e then PostedFields(es[0].note, es[0].input)
      else before)
  }

  lemma FieldsStep(s: State, ev: Event, e: nat)
    requires Enabled(s, ev) && e in s.expenses
    ensures e in Step(s, ev).expenses
    ensures Step(s, ev).expenses[e].head.fields ==
              if ev.Post? && ev.expense == e then PostedFields(ev.note, ev.input) else s.expenses[e].head.fields
  {
    hide CanMint, CanEdit, CanAccept, CanJoin, CanAdd, CanRekey, CanLock, CanShare, Claimable, IsActive, LookedTx,
         SnappedTx, RekeyedTx, Both, Holding, Swept, MembersAfter, Valid, SplitOf;
    match ev
    case Post(t, e', note, input) => PostedHeadAt(s, t, e', note, input);
    case _ =>
  }

  lemma {:induction false} FieldsAfter(s: State, es: seq<Event>, e: nat)
    requires Trace(s, es) && e in s.expenses
    ensures e in After(s, es).expenses
            && After(s, es).expenses[e].head.fields == LastFields(es, e, s.expenses[e].head.fields)
    decreases |es|
  {
    hide Enabled, Step;
    if es != [] {
      FieldsStep(s, es[0], e);
      FieldsAfter(Step(s, es[0]), es[1..], e);
    }
  }

  lemma LookedStays(s: State, ev: Event, t: nat)
    requires Enabled(s, ev) && ClaimAt(s, t, Looked) && ev != Snap(t) && ev != Abort(t)
    ensures t in Step(s, ev).txns && Step(s, ev).txns[t] == s.txns[t]
  {
    hide Claimable, IsActive, LookedTx, SnappedTx, RekeyedTx, Both, Holding, Swept, MembersAfter, Valid, SplitOf,
         SweptExpenses, PostedExpense;
  }

  lemma {:induction false} LookedUntil(s: State, es: seq<Event>, t: nat)
    requires Trace(s, es) && ClaimAt(s, t, Looked) && Snap(t) !in es && Abort(t) !in es
    ensures t in After(s, es).txns && After(s, es).txns[t] == s.txns[t]
    decreases |es|
  {
    hide Enabled, Step;
    if es != [] {
      assert es[0] in es && forall ev :: ev in es[1..] ==> ev in es;
      LookedStays(s, es[0], t);
      LookedUntil(Step(s, es[0]), es[1..], t);
    }
  }

  /** What the first SELECT remembers of an expense to fold. */
  lemma LookedAt(s: State, t: nat, e: nat)
    requires ClaimAt(s, t, Joined) && e in LookedTx(s, t).folds
    ensures e in s.expenses && LookedTx(s, t).folds[e] == s.expenses[e].head
    ensures Enabled(s, Look(t)) && Step(s, Look(t)) == SetTx(s, t, LookedTx(s, t))
  {
    hide Both;
  }

  /**
   Whatever commits between a claim's two SELECTs, the revision made of the two is the state of
   the expense at the second if and only if the last edit between them, if there was one, left
   the expense's fields as the first SELECT had read them.
   */
  lemma SnapRecordsStateIff(s: State, t: nat, es: seq<Event>, e: nat)
    requires ClaimAt(s, t, Joined) && e in LookedTx(s, t).folds
    requires Trace(Step(s, Look(t)), es) && Snap(t) !in es && Abort(t) !in es
    ensures var s2 := After(Step(s, Look(t)), es);
            var before := s.expenses[e].head.fields;
            && ClaimAt(s2, t, Looked) && e in s2.expenses && e in SnappedTx(s2, t).folds
            && (SnappedTx(s2, t).folds[e] == s2.expenses[e].head <==> LastFields(es, e, before) == before)
  {
    hide Step, Enabled, LookedTx, Trace, After;
    LookedAt(s, t, e);
    var s1 := Step(s, Look(t));
    LookedClaim(s, t);
    FieldsAfter(s1, es, e);
    LookedUntil(s1, es, t);
    SnappedAt(After(s1, es), t, e);
  }

  lemma LookedClaim(s: State, t: nat)
    requires ClaimAt(s, t, Joined)
    ensures ClaimAt(SetTx(s, t, LookedTx(s, t)), t, Looked)
  {
    hide Both;
  }

  /** The second SELECT keeps the fields read before and takes the splits of now. */
  lemma SnappedAt(s: State, t: nat, e: nat)
    requires ClaimAt(s, t, Looked) && e in s.txns[t].folds && e in s.expenses
    ensures e in SnappedTx(s, t).folds
    ensures SnappedTx(s, t).folds[e] == s.expenses[e].head <==> s.txns[t].folds[e].fields == s.expenses[e].head.fields
  {
  }

  // ---------- the record they leave ----------

  /** The expense was in this very state at some time. */
  predicate WasState(ex: Expense, h: Head) {
    exists k :: 0 <= k < |ex.past| && ex.past[k].1 == h
  }

  predicate FoldsOk(ex: Expense) {
    && ex.past != [] && ex.past[|ex.past| - 1].1 == ex.head
    && forall i :: 0 <= i < |ex.revisions| && ex.revisions[i].Folded? ==> WasState(ex, ex.revisions[i].before)
  }

  predicate FoldTxOk(expenses: Expenses, tx: Tx) {
    tx.Accepting? ==>
      && tx.folds.Keys <= expenses.Keys
      && (Past(tx.stage, Snapped) ==> forall e :: e in tx.folds ==> WasState(expenses[e], tx.folds[e]))
  }

  ghost predicate Folding(s: State) {
    && (forall e :: e in s.expenses ==> FoldsOk(s.expenses[e]))
    && (forall t :: t in s.txns ==> FoldTxOk(s.expenses, s.txns[t]))
  }

  /** A later record of the expense, with all states it had before. */
  predicate Continues(ex: Expense, later: Expense) {
    |ex.past| <= |later.past| && later.past[..|ex.past|] == ex.past
  }

  lemma WasStill(ex: Expense, later: Expense, h: Head)
    requires Continues(ex, later) && WasState(ex, h)
    ensures WasState(later, h)
  {
    var k :| 0 <= k < |ex.past| && ex.past[k].1 == h;
    assert later.past[..|ex.past|][k] == later.past[k];
  }

  lemma PostFolding(s: State, t: nat, e: nat, note: Note, input: SplitInput)
    requires CanPost(s, t, e, note, input) && Folding(s)
    ensures Folding(s.(expenses := s.expenses[e := PostedExpense(s, t, e, note, input)], txns := s.txns - {t}))
  {
    hide WasState, Valid, SplitOf, Writes;
    var head, after := PostedHead(note, input), PostedExpense(s, t, e, note, input);
    LastIsState(after);
    if e in s.expenses {
      forall h | WasState(s.expenses[e], h) { WasStill(s.expenses[e], after, h); }
    }
  }

  lemma LastIsState(ex: Expense)
    ensures ex.past != [] ==> WasState(ex, ex.past[|ex.past| - 1].1)
  {
  }

  lemma SnapFolding(s: State, t: nat)
    requires ClaimAt(s, t, Looked) && Folding(s) && AllSettled(s)
    ensures FoldTxOk(s.expenses, SnappedTx(s, t))
  {
    hide WasState;
    assert Settled(s.expenses, s.txns[t]);
    assert FoldTxOk(s.expenses, s.txns[t]);
    forall e | e in s.txns[t].folds
      ensures WasState(s.expenses[e], SnappedTx(s, t).folds[e])
    {
      assert FoldsOk(s.expenses[e]);
      LastIsState(s.expenses[e]);
      SnappedAt(s, t, e);
    }
  }

  /** A claim's commit on one expense: what it folded had been a state, and what it leaves is one. */
  lemma SweptFolds(expenses: Expenses, tx: Tx, e: nat)
    requires tx.Accepting? && tx.target.Some? && Past(tx.stage, Snapped) && e in expenses
    requires FoldsOk(expenses[e]) && FoldTxOk(expenses, tx)
    ensures Continues(expenses[e], SweptExpense(tx, e, expenses[e])) && FoldsOk(SweptExpense(tx, e, expenses[e]))
  {
    hide WasState, Swept;
    var after := SweptExpense(tx, e, expenses[e]);
    forall h | WasState(expenses[e], h) { WasStill(expenses[e], after, h); }
  }

  lemma FinishFolding(s: State, t: nat)
    requires Enabled(s, Finish(t)) && Folding(s)
    ensures Folding(FinishStep(s, t))
  {
    hide FoldsOk, FoldTxOk, SweptExpense, MembersAfter, Continues;
    var tx := s.txns[t];
    if tx.target.Some? {
      forall e | e in s.expenses { SweptFolds(s.expenses, tx, e); }
      forall t' | t' in s.txns { TxFolds(s.expenses, SweptExpenses(tx, s.expenses), s.txns[t']); }
    }
  }

  lemma TxFolds(before: Expenses, after: Expenses, tx: Tx)
    requires before.Keys == after.Keys && (forall e :: e in before ==> Continues(before[e], after[e]))
    requires FoldTxOk(before, tx)
    ensures FoldTxOk(after, tx)
  {
    hide WasState, Continues;
    if tx.Accepting? && Past(tx.stage, Snapped) {
      forall e | e in tx.folds { WasStill(before[e], after[e], tx.folds[e]); }
    }
  }

  lemma FoldingSetTx(s: State, t: nat, tx: Tx)
    requires Folding(s) && FoldTxOk(s.expenses, tx)
    ensures Folding(SetTx(s, t, tx))
  {
    hide FoldsOk, FoldTxOk;
  }

  lemma FoldTxAt(s: State, t: nat)
    requires Folding(s) && t in s.txns
    ensures FoldTxOk(s.expenses, s.txns[t])
  {
  }

  /** The steps of an accept up to its commit. */
  lemma AcceptFolding(s: State, ev: Event)
    requires Folding(s) && Enabled(s, ev) && AllSettled(s)
    requires ev.LockTarget? || ev.Join? || ev.Look? || ev.Snap? || ev.FindShares? || ev.AddShares?
             || ev.DeleteShares? || ev.Rekey?
    ensures Folding(Step(s, ev))
  {
    hide Folding, CanLock, Claimable, SnappedTx, WasState, AllSettled, Holding, IsActive;
    var t := ev.t;
    FoldTxAt(s, t);
    if ev.Snap? { SnapFolding(s, t); }
    FoldingSetTx(s, t, Step(s, ev).txns[t]);
  }

  lemma FoldingStep(s: State, ev: Event)
    requires Folding(s) && Enabled(s, ev) && AllSettled(s)
    ensures Folding(Step(s, ev))
  {
    hide FoldsOk, FinishStep, PostedExpense, CanPost, CanMint, CanEdit, CanAccept, CanJoin, CanAdd, CanRekey, CanLock,
         Claimable, LookedTx, SnappedTx, RekeyedTx, WasState, Settled, Holding, Both;
    match ev
    case Post(t, e, note, input) => PostFolding(s, t, e, note, input);
    case Finish(t) => FinishFolding(s, t);
    case LockTarget(t) => AcceptFolding(s, ev);
    case Join(t) => AcceptFolding(s, ev);
    case Look(t) => AcceptFolding(s, ev);
    case Snap(t) => AcceptFolding(s, ev);
    case FindShares(t) => AcceptFolding(s, ev);
    case AddShares(t) => AcceptFolding(s, ev);
    case DeleteShares(t) => AcceptFolding(s, ev);
    case Rekey(t) => AcceptFolding(s, ev);
    case _ =>
  }

  lemma {:induction false} FoldingRun(s: State, es: seq<Event>)
    requires Folding(s) && AllSettled(s) && Trace(s, es) && Calm(s, es)
    ensures Folding(After(s, es))
    decreases |es|
  {
    hide Enabled, Step, Folding, AllSettled, Disturbs;
    if es != [] {
      FoldingStep(s, es[0]);
      SettledStep(s, es[0]);
      FoldingRun(Step(s, es[0]), es[1..]);
    }
  }

  /** In every calm run a claim's revisions record states the expense had, field by field and split by split. */
  lemma FoldedRevisionsAreStates(s: State, es: seq<Event>, e: nat, i: nat)
    requires Start(s) && Trace(s, es) && Calm(s, es) && e in After(s, es).expenses
    requires i < |After(s, es).expenses[e].revisions| && After(s, es).expenses[e].revisions[i].Folded?
    ensures var ex := After(s, es).expenses[e];
            exists k :: 0 <= k < |ex.past| && ex.past[k].1 == ex.revisions[i].before
  {
    hide Enabled, Step, Start, Calm, FoldTxOk;
    StartFolding(s);
    FoldingRun(s, es);
    assert FoldsOk(After(s, es).expenses[e]);
  }

  /** Where claims do not meet either, the edits' revisions and the head list those states too. */
  lemma FoldedRevisionsAreListed(s: State, es: seq<Event>, e: nat, i: nat)
    requires Start(s) && Trace(s, es) && Solo(s, es) && Calm(s, es) && e in After(s, es).expenses
    requires i < |After(s, es).expenses[e].revisions| && After(s, es).expenses[e].revisions[i].Folded?
    ensures var end := After(s, es);
            var ex := end.expenses[e];
            exists k :: 0 <= k < |Listing(ex)| && Same(ex.revisions[i].before, Listing(ex)[k], end.claims)
  {
    hide Enabled, Step, Start, Calm, Solo, Same, Listing;
    FoldedRevisionsAreStates(s, es, e, i);
    RevisionsListEveryState(s, es, e);
    var ex := After(s, es).expenses[e];
    var k :| 0 <= k < |ex.past| && ex.past[k].1 == ex.revisions[i].before;
    assert Same(ex.past[k].1, Listing(ex)[ex.past[k].0], After(s, es).claims);
  }

  lemma StartFolding(s: State)
    requires Start(s)
    ensures Folding(s) && AllSettled(s)
  {
  }
}
