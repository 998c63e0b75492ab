/**
 Conservation and history over the runs of ClaimProtocol: every expense's splits sum to its
 amount, and its revisions followed by its head list every state it ever had, up to renaming a
 claimed placeholder to its claimer.  Both need that two open claims of one user never meet in
 an expense; what one claim can lose otherwise is stated exactly.
 */
module ClaimLedger {
  import opened Text
  import opened Sums
  import opened Splits
  import opened Balances
  import opened Claim
  import opened ClaimProtocol
  import opened ClaimLocks

  // ---------- what one claim does to one expense ----------

  /** A share that the DELETE removed and the earlier UPDATE had not added to the claimer's. */
  function Lost(tx: Tx, e: nat, splits: map<UserId, int>): int
    requires tx.Accepting? && tx.target.Some?
  {
    if e in tx.deleted && e !in tx.added then Get(splits, tx.target.value) else 0
  }

  lemma TotalWithout(splits: map<UserId, int>, u: UserId)
    ensures Total(splits - {u}) == Total(splits) - Get(splits, u)
  {
    hide Total;
    if u in splits {
      assert (splits - {u})[u := splits[u]] == splits;
      TotalInsert(splits - {u}, u, splits[u]);
    } else {
      assert splits - {u} == splits;
    }
  }

  /** Which of a claim's statements wrote the expense, and what the rows there look like. */
  lemma RowCases(expenses: Expenses, tx: Tx, e: nat)
    requires RowsOk(expenses, tx) && tx.Accepting? && tx.target.Some? && Past(tx.stage, Rekeyed) && e in expenses
    ensures var splits := expenses[e].head.splits;
            && (e in tx.added ==> e in tx.deleted && tx.user in splits)
            && (e in tx.deleted ==> tx.target.value in splits && e !in tx.rekeyed)
            && (e in tx.rekeyed ==> tx.target.value in splits && tx.user !in splits)
            && (tx.target.value in splits ==> e in tx.deleted || e in tx.rekeyed)
  {
    hide Holding;
    InHolding(expenses, e, tx.target.value);
    InHolding(expenses, e, tx.user);
  }

  /** The total changes by exactly the share lost. */
  lemma SweptTotal(expenses: Expenses, tx: Tx, e: nat)
    requires RowsOk(expenses, tx) && tx.Accepting? && tx.target.Some? && Past(tx.stage, Rekeyed) && e in expenses
    requires tx.target.value != tx.user
    ensures var splits := expenses[e].head.splits; Total(Swept(tx, e, splits)) == Total(splits) - Lost(tx, e, splits)
  {
    hide RowsOk, Total;
    RowCases(expenses, tx, e);
    var splits, p, c := expenses[e].head.splits, tx.target.value, tx.user;
    if e in tx.added {
      TotalUpdate(splits, c, Get(splits, c) + Get(splits, p));
      TotalWithout(splits[c := Get(splits, c) + Get(splits, p)], p);
    } else if e in tx.deleted {
      TotalWithout(splits, p);
    } else if e in tx.rekeyed {
      TotalWithout(splits, p);
      TotalInsert(splits - {p}, c, Get(splits, p));
    }
  }

  /** The claim's statements agree: every row deleted had been added. */
  predicate Agrees(tx: Tx) {
    tx.Accepting? ==> tx.deleted <= tx.added
  }

  lemma SweptIsClaim(expenses: Expenses, tx: Tx, e: nat)
    requires RowsOk(expenses, tx) && tx.Accepting? && tx.target.Some? && Past(tx.stage, Rekeyed) && e in expenses
    requires tx.target.value != tx.user && Agrees(tx)
    ensures Swept(tx, e, expenses[e].head.splits) == ClaimSplits(expenses[e].head.splits, tx.target.value, tx.user)
  {
    hide RowsOk;
    RowCases(expenses, tx, e);
    var splits, p, c := expenses[e].head.splits, tx.target.value, tx.user;
    if e in tx.rekeyed {
      assert (splits - {p})[c := Get(splits, p)] == ClaimSplits(splits, p, c);
    } else if e in tx.deleted {
      assert splits[c := Get(splits, c) + Get(splits, p)] - {p} == ClaimSplits(splits, p, c);
    }
  }

  /**
   A commit keeps every total if and only if no share of value was deleted without having been
   added: the rows the DELETE finds must be the rows the UPDATE before it found.
   */
  lemma CommitConservesIff(s: State, t: nat)
    requires Inv(s) && Enabled(s, Finish(t)) && s.txns[t].target.Some?
    ensures (forall e :: e in s.expenses ==>
            Total(FinishStep(s, t).expenses[e].head.splits) == Total(s.expenses[e].head.splits))
       <==> (forall e :: e in s.expenses && e in s.txns[t].deleted && e !in s.txns[t].added ==>
               Get(s.expenses[e].head.splits, s.txns[t].target.value) == 0)
  {
    hide RowsOk, Compatible, MembersOk, InvitesOk, Total, Swept, TxOk;
    var tx := s.txns[t];
    TargetIsNobody(s, t);
    forall e | e in s.expenses
      ensures Total(FinishStep(s, t).expenses[e].head.splits)
              == Total(s.expenses[e].head.splits) - Lost(tx, e, s.expenses[e].head.splits)
    {
      SweptTotal(s.expenses, tx, e);
    }
    forall e | e in s.expenses && Total(FinishStep(s, t).expenses[e].head.splits) == Total(s.expenses[e].head.splits)
      ensures Lost(tx, e, s.expenses[e].head.splits) == 0
    {
    }
  }

  // ---------- claims that do not meet ----------

  /**
   Two open claims of one user never meet in an expense in which both placeholders hold a share
   and the user none.
   */
  predicate Apart(s: State) {
    forall t, t' :: t in s.txns && t' in s.txns && t != t' ==> Clear(s.expenses, s.txns[t], s.txns[t'])
  }

  predicate Clear(expenses: Expenses, a: Tx, b: Tx) {
    Claiming(a) && Claiming(b) && a.user == b.user ==> Shared(expenses, a, b) == {}
  }

  predicate Claiming(tx: Tx) {
    tx.Accepting? && tx.target.Some? && Past(tx.stage, Joined)
  }

  function Shared(expenses: Expenses, a: Tx, b: Tx): set<nat>
    requires Claiming(a) && Claiming(b)
  {
    Holding(expenses, a.target.value) * Holding(expenses, b.target.value) - Holding(expenses, a.user)
  }

  ghost predicate Solo(s: State, es: seq<Event>)
    requires Trace(s, es)
    decreases |es|
  {
    Apart(s) && (es != [] ==> Solo(Step(s, es[0]), es[1..]))
  }

  /** From its first SELECT on, the claim knows every expense in which both hold a split. */
  predicate Exact(expenses: Expenses, tx: Tx) {
    tx.Accepting? && tx.target.Some? ==>
      && (Past(tx.stage, Looked) ==> Both(expenses, tx) <= tx.folds.Keys)
      && tx.deleted <= tx.added && (tx.stage == Adding ==> Both(expenses, tx) <= tx.found)
      && (Past(tx.stage, Added) ==> Both(expenses, tx) <= tx.added)
  }

  ghost predicate AllExact(s: State) {
    forall t :: t in s.txns ==> Exact(s.expenses, s.txns[t])
  }

  lemma PostExact(s: State, t: nat, e: nat, note: Note, input: SplitInput)
    requires Inv(s) && CanPost(s, t, e, note, input) && AllExact(s)
    ensures AllExact(s.(expenses := s.expenses[e := PostedExpense(s, t, e, note, input)], txns := s.txns - {t}))
  {
    hide RowsOk, InvitesOk, MembersOk, TxOk, PostedExpense, SplitOf, Valid, Holding, Total;
    var ex := PostedExpense(s, t, e, note, input);
    PostedHeadAt(s, t, e, note, input);
    SplitSumsToTotal(input);
    forall t' | t' in s.txns && t' != t
      ensures Exact(s.expenses[e := ex], s.txns[t'])
    {
      var tx := s.txns[t'];
      assert Compatible(tx, s.txns[t]);
      if tx.Accepting? && tx.target.Some? && Past(tx.stage, Looked) {
        HoldingPut(s.expenses, e, ex, tx.target.value);
        HoldingPut(s.expenses, e, ex, tx.user);
      }
    }
  }

  /** A claim that commits gives the user no row next to the placeholder of another, if they do not meet. */
  lemma ClaimsKeepExact(expenses: Expenses, done: Tx, tx: Tx)
    requires Claiming(done) && Claiming(tx) && Past(done.stage, Rekeyed) && RowsOk(expenses, done)
             && Exact(expenses, tx)
    requires done.target.value != tx.target.value && done.target.value != done.user && done.target.value != tx.user
    requires tx.target.value != done.user
    requires done.user == tx.user ==> Shared(expenses, done, tx) == {}
    ensures Exact(SweptExpenses(done, expenses), tx)
  {
    hide Holding, SweptExpenses;
    SweptHolding(expenses, done, tx.target.value);
    SweptHolding(expenses, done, tx.user);
    if done.user == tx.user {
      NoMeeting(Holding(expenses, tx.target.value), Holding(expenses, done.target.value), Holding(expenses, tx.user),
        done.rekeyed);
    }
  }

  lemma NoMeeting(theirs: set<nat>, others: set<nat>, mine: set<nat>, rekeyed: set<nat>)
    requires rekeyed <= others - mine && others * theirs - mine == {}
    ensures theirs * (mine + rekeyed) == theirs * mine
  {
    forall e | e in theirs && e in rekeyed
      ensures e in others * theirs - mine
    {
    }
  }

  lemma FinishExact(s: State, t: nat)
    requires Inv(s) && Apart(s) && Enabled(s, Finish(t)) && AllExact(s)
    ensures AllExact(FinishStep(s, t))
  {
    hide RowsOk, InvitesOk, MembersOk, TxOk, SweptExpenses, Holding, MembersAfter, Shared, Both;
    TargetIsNobody(s, t);
    forall t' | t' in s.txns && t' != t
      ensures Exact(FinishStep(s, t).expenses, s.txns[t'])
    {
      ExactAt(s, t');
      assert Compatible(s.txns[t'], s.txns[t]);
      TargetIsNobody(s, t');
      assert Clear(s.expenses, s.txns[t], s.txns[t']);
      if Claiming(s.txns[t']) && Claiming(s.txns[t]) { ClaimsKeepExact(s.expenses, s.txns[t], s.txns[t']); }
    }
  }

  lemma ExactSetTx(s: State, t: nat, tx: Tx)
    requires AllExact(s) && Exact(s.expenses, tx)
    ensures AllExact(SetTx(s, t, tx))
  {
    hide Exact;
  }

  lemma ExactStep(s: State, ev: Event)
    requires Inv(s) && Apart(s) && Enabled(s, ev) && AllExact(s)
    ensures AllExact(Step(s, ev))
  {
    hide Inv, FinishStep, PostedExpense, CanPost, CanMint, CanEdit, CanShare, CanJoin, CanAccept, CanAdd, CanRekey,
         Both, Exact, LookedTx, SnappedTx, RekeyedTx, Claimable, CanLock;
    match ev
    case Post(t, e, note, input) => PostExact(s, t, e, note, input);
    case Finish(t) => FinishExact(s, t);
    case LockTarget(t) => ClaimExactStep(s, ev);
    case Join(t) => ClaimExactStep(s, ev);
    case Look(t) => SelectExactStep(s, ev);
    case Snap(t) => SelectExactStep(s, ev);
    case FindShares(t) => ClaimExactStep(s, ev);
    case AddShares(t) => ClaimExactStep(s, ev);
    case DeleteShares(t) => ClaimExactStep(s, ev);
    case Rekey(t) => ClaimExactStep(s, ev);
    case _ => OtherExactStep(s, ev);
  }

  lemma OtherExactStep(s: State, ev: Event)
    requires Enabled(s, ev) && AllExact(s)
    requires ev.AddPlaceholder? || ev.Mint? || ev.Close? || ev.BeginPost? || ev.BeginEdit? || ev.LockMember?
             || ev.BeginAccept? || ev.Abort?
    ensures AllExact(Step(s, ev))
  {
    hide Holding, Both, CanMint, CanEdit, CanAccept;
  }

  lemma ClaimExactStep(s: State, ev: Event)
    requires Inv(s) && Enabled(s, ev) && AllExact(s)
    requires ev.LockTarget? || ev.Join? || ev.FindShares? || ev.AddShares? || ev.DeleteShares? || ev.Rekey?
    ensures AllExact(Step(s, ev))
  {
    hide Inv, Holding, AllExact, CanLock, IsActive, Claimable;
    var t := ev.t;
    assert Exact(s.expenses, s.txns[t]) by { ExactAt(s, t); }
    if ev.FindShares? || ev.AddShares? { NothingDeletedYet(s, t); }
    ExactSetTx(s, t, Step(s, ev).txns[t]);
  }

  /** The first SELECT finds every expense in which both hold a split, the second keeps to those. */
  lemma SelectKeys(s: State, t: nat)
    ensures ClaimAt(s, t, Joined) ==> LookedTx(s, t).folds.Keys == Both(s.expenses, s.txns[t])
    ensures ClaimAt(s, t, Looked) ==> SnappedTx(s, t).folds.Keys == s.txns[t].folds.Keys
  {
  }

  lemma SelectExactStep(s: State, ev: Event)
    requires Enabled(s, ev) && AllExact(s) && (ev.Look? || ev.Snap?)
    ensures AllExact(Step(s, ev))
  {
    hide Holding, AllExact;
    var t := ev.t;
    ExactAt(s, t);
    SelectKeys(s, t);
    ExactSetTx(s, t, Step(s, ev).txns[t]);
  }

  lemma ExactAt(s: State, t: nat)
    requires AllExact(s) && t in s.txns
    ensures Exact(s.expenses, s.txns[t])
  {
  }

  lemma NothingDeletedYet(s: State, t: nat)
    requires Inv(s) && (ClaimAt(s, t, Snapped) || ClaimAt(s, t, Adding))
    ensures s.txns[t].deleted == {}
  {
    hide TxOk, Compatible, MembersOk, InvitesOk, ClaimRowsOk;
  }

  // ---------- conservation ----------

  /** The splits are non-negative and sum to a positive amount, and the payer is no placeholder. */
  ghost predicate HeadOk(accounts: set<UserId>, head: Head) {
    head.fields.paidBy in accounts && head.fields.amountCents > 0 && Total(head.splits) == head.fields.amountCents
    && forall u :: u in head.splits ==> head.splits[u] >= 0
  }

  ghost predicate Conserved(s: State) {
    forall e :: e in s.expenses ==> HeadOk(s.accounts, s.expenses[e].head)
  }

  lemma PostedHeadOk(s: State, t: nat, e: nat, note: Note, input: SplitInput)
    requires Inv(s) && CanPost(s, t, e, note, input)
    ensures HeadOk(s.accounts, PostedHead(note, input))
  {
    hide RowsOk, Compatible, InvitesOk, TxOk, SplitOf, Total, Floors, Remainder, RemainderRecipient;
    SplitSumsToTotal(input);
    forall u | u in SplitOf(input)
      ensures SplitOf(input)[u] >= 0
    {
      SharesNearFloor(input, u);
    }
  }

  lemma PostConserves(s: State, t: nat, e: nat, note: Note, input: SplitInput)
    requires Inv(s) && CanPost(s, t, e, note, input) && Conserved(s)
    ensures Conserved(s.(expenses := s.expenses[e := PostedExpense(s, t, e, note, input)], txns := s.txns - {t}))
  {
    hide Inv, HeadOk, CanPost, PostedExpense;
    PostedHeadOk(s, t, e, note, input);
    PostedHeadAt(s, t, e, note, input);
  }

  /** The commit of a claim that agrees with itself is ClaimSplits on every expense. */
  lemma FinishIsClaim(s: State, t: nat, e: nat)
    requires Inv(s) && AllExact(s) && Enabled(s, Finish(t)) && s.txns[t].target.Some? && e in s.expenses
    ensures FinishStep(s, t).expenses[e].head
         == s.expenses[e].head.(splits := ClaimSplits(s.expenses[e].head.splits, s.txns[t].target.value,
           s.txns[t].user))
  {
    hide RowsOk, Compatible, InvitesOk, TxOk, MembersOk, ClaimSplits, Swept, MembersAfter, Both;
    TargetIsNobody(s, t);
    ExactAt(s, t);
    SweptIsClaim(s.expenses, s.txns[t], e);
  }

  lemma FinishConserves(s: State, t: nat)
    requires Inv(s) && AllExact(s) && Enabled(s, Finish(t)) && Conserved(s)
    ensures Conserved(FinishStep(s, t))
  {
    hide Inv, AllExact, ClaimSplits, Total, SweptExpense;
    TargetIsNobody(s, t);
    if s.txns[t].target.Some? {
      forall e | e in s.expenses
        ensures HeadOk(s.accounts, FinishStep(s, t).expenses[e].head)
      {
        FinishIsClaim(s, t, e);
        ClaimKeepsTotal(s.expenses[e].head.splits, s.txns[t].target.value, s.txns[t].user);
        ClaimKeepsSigns(s.expenses[e].head.splits, s.txns[t].target.value, s.txns[t].user);
      }
    }
  }

  lemma ConservedStep(s: State, ev: Event)
    requires Inv(s) && AllExact(s) && Enabled(s, ev) && Conserved(s)
    ensures Conserved(Step(s, ev))
  {
    hide Inv, AllExact, FinishStep, HeadOk, PostedExpense, CanPost, CanMint, CanEdit, CanShare, CanJoin, CanAccept,
         CanAdd, CanRekey, Both, LookedTx, SnappedTx, RekeyedTx, Claimable, CanLock;
    match ev
    case Post(t, e, note, input) => PostConserves(s, t, e, note, input);
    case Finish(t) => FinishConserves(s, t);
    case _ =>
  }

  lemma {:induction false} ConservedRun(s: State, es: seq<Event>)
    requires Inv(s) && AllExact(s) && Conserved(s) && Trace(s, es) && Solo(s, es)
    ensures Conserved(After(s, es))
    decreases |es|
  {
    hide Inv, AllExact, Apart, Enabled, Step, Conserved;
    if es != [] {
      InvStep(s, es[0]);
      ExactStep(s, es[0]);
      ConservedStep(s, es[0]);
      ConservedRun(Step(s, es[0]), es[1..]);
    }
  }

  /**
   In every run in which two open claims of one user never meet in an expense, each expense's
   splits are non-negative and sum to its amount, and no payer is a placeholder.
   */
  lemma LedgerStaysBalanced(s: State, es: seq<Event>, e: nat)
    requires Start(s) && Trace(s, es) && Solo(s, es) && e in After(s, es).expenses
    ensures HeadOk(s.accounts, After(s, es).expenses[e].head)
  {
    hide Enabled, Step, Start, HeadOk, Inv;
    CleanStart(s);
    StartConserved(s);
    ConservedRun(s, es);
    SameAccounts(s, es);
  }

  // ---------- every run, overlapping claims included ----------

  /** What even overlapping claims keep: they can only lose a share. */
  ghost predicate Sane(accounts: set<UserId>, head: Head) {
    head.fields.paidBy in accounts && head.fields.amountCents > 0 && Total(head.splits) <= head.fields.amountCents
    && forall u :: u in head.splits ==> head.splits[u] >= 0
  }

  ghost predicate AllSane(s: State) {
    forall e :: e in s.expenses ==> Sane(s.accounts, s.expenses[e].head)
  }

  lemma PostSane(s: State, t: nat, e: nat, note: Note, input: SplitInput)
    requires Inv(s) && CanPost(s, t, e, note, input) && AllSane(s)
    ensures AllSane(s.(expenses := s.expenses[e := PostedExpense(s, t, e, note, input)], txns := s.txns - {t}))
  {
    hide Inv, CanPost, PostedExpense, Total;
    PostedHeadOk(s, t, e, note, input);
    PostedHeadAt(s, t, e, note, input);
  }

  lemma SweptSigns(tx: Tx, e: nat, splits: map<UserId, int>)
    requires tx.Accepting? && tx.target.Some? && forall u :: u in splits ==> splits[u] >= 0
    ensures forall u :: u in Swept(tx, e, splits) ==> Swept(tx, e, splits)[u] >= 0
  {
  }

  lemma FinishSane(s: State, t: nat)
    requires Inv(s) && Enabled(s, Finish(t)) && AllSane(s)
    ensures AllSane(FinishStep(s, t))
  {
    hide Compatible, TxOk, MembersOk, InvitesOk, RowsOk, Swept, Total, MembersAfter;
    TargetIsNobody(s, t);
    var tx := s.txns[t];
    if tx.target.Some? {
      forall e | e in s.expenses
        ensures Sane(s.accounts, FinishStep(s, t).expenses[e].head)
      {
        SweptTotal(s.expenses, tx, e);
        SweptSigns(tx, e, s.expenses[e].head.splits);
      }
    }
  }

  lemma SaneStep(s: State, ev: Event)
    requires Inv(s) && Enabled(s, ev) && AllSane(s)
    ensures AllSane(Step(s, ev))
  {
    hide Inv, FinishStep, Sane, PostedExpense, CanPost, CanMint, CanEdit, CanShare, CanJoin, CanAccept, CanAdd,
         CanRekey, Both, LookedTx, SnappedTx, RekeyedTx, Claimable, CanLock;
    match ev
    case Post(t, e, note, input) => PostSane(s, t, e, note, input);
    case Finish(t) => FinishSane(s, t);
    case _ =>
  }

  lemma {:induction false} SaneRun(s: State, es: seq<Event>)
    requires Inv(s) && AllSane(s) && Trace(s, es)
    ensures AllSane(After(s, es))
    decreases |es|
  {
    hide Inv, Enabled, Step, AllSane;
    if es != [] {
      InvStep(s, es[0]);
      SaneStep(s, es[0]);
      SaneRun(Step(s, es[0]), es[1..]);
    }
  }

  /**
   In every run, however claims overlap: splits are non-negative and never sum to more than the
   amount, and no payer is a placeholder.
   */
  lemma LedgerStaysSane(s: State, es: seq<Event>, e: nat)
    requires Start(s) && Trace(s, es) && e in After(s, es).expenses
    ensures var end := After(s, es);
            var head := end.expenses[e].head;
            && Total(head.splits) <= head.fields.amountCents && (forall u :: u in head.splits ==> head.splits[u] >= 0)
            && (head.fields.paidBy in end.members ==> !end.members[head.fields.paidBy].placeholder)
  {
    hide Enabled, Step, Start, TxOk, RowsOk, Compatible, InvitesOk, Total;
    InvStart(s);
    StartSane(s);
    SaneRun(s, es);
    InvRun(s, es);
    SameAccounts(s, es);
    PayerOk(After(s, es), e);
  }

  lemma PayerOk(s: State, e: nat)
    requires MembersOk(s.accounts, s.members) && e in s.expenses && s.expenses[e].head.fields.paidBy in s.accounts
    ensures s.expenses[e].head.fields.paidBy in s.members ==> !s.members[s.expenses[e].head.fields.paidBy].placeholder
  {
  }

  lemma StartSane(s: State)
    requires Start(s)
    ensures AllSane(s)
  {
  }

  lemma StartConserved(s: State)
    requires Start(s)
    ensures AllExact(s) && Conserved(s)
  {
  }

  lemma AccountsStep(s: State, ev: Event)
    requires Enabled(s, ev)
    ensures Step(s, ev).accounts == s.accounts
  {
    hide CanPost, CanMint, CanEdit, CanShare, CanJoin, CanAccept, CanAdd, CanRekey, PostedExpense, Trace, After;
  }

  lemma {:induction false} SameAccounts(s: State, es: seq<Event>)
    requires Trace(s, es)
    ensures After(s, es).accounts == s.accounts
    decreases |es|
  {
    hide Enabled, Step;
    if es != [] {
      AccountsStep(s, es[0]);
      SameAccounts(Step(s, es[0]), es[1..]);
    }
  }
}
