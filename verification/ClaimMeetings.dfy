/**
 Two claims of one user at a time: exactly when one of them can lose its placeholder's share of
 an expense.  The DELETE of a claim looks at the user's rows again, after its UPDATE has chosen
 those it adds to; what the other claim re-keys to the user in between is deleted and not added.
 */
module ClaimMeetings {
  import opened Text
  import opened Sums
  import opened Splits
  import opened Balances
  import opened Claim
  import opened ClaimProtocol
  import opened ClaimLocks
  import opened ClaimLedger

  // ---------- runs in which a claim goes on ----------

  /** The claim `t` of `user` goes on through the event, and the user begins no further accept. */
  predicate LeavesBe(ev: Event, t: nat, user: UserId) {
    ev != Abort(t) && ev != Finish(t) && !(ev.BeginAccept? && ev.user == user)
  }

  predicate GoesOn(es: seq<Event>, t: nat, user: UserId) {
    forall ev :: ev in es ==> LeavesBe(ev, t, user)
  }

  ghost predicate Gets(s: State, s': State, t: nat, user: UserId) {
    exists es :: Trace(s, es) && GoesOn(es, t, user) && After(s, es) == s'
  }

  lemma GetsSelf(s: State, t: nat, user: UserId)
    ensures Gets(s, s, t, user)
  {
    assert Trace(s, []) && After(s, []) == s && GoesOn([], t, user);
  }

  lemma {:induction false} TraceSnoc(s: State, es: seq<Event>, ev: Event)
    requires Trace(s, es) && Enabled(After(s, es), ev)
    ensures Trace(s, es + [ev]) && After(s, es + [ev]) == Step(After(s, es), ev)
    decreases |es|
  {
    hide Enabled, Step;
    if es == [] {
      assert es + [ev] == [ev] && [ev][1..] == [];
      assert After(Step(s, ev), []) == Step(s, ev);
    } else {
      TraceSnoc(Step(s, es[0]), es[1..], ev);
      assert (es + [ev])[1..] == es[1..] + [ev];
    }
  }

  lemma GetsStep(s: State, s': State, ev: Event, t: nat, user: UserId)
    requires Gets(s, s', t, user) && Enabled(s', ev) && LeavesBe(ev, t, user)
    ensures Gets(s, Step(s', ev), t, user)
  {
    hide Enabled, Step, LeavesBe;
    var es :| Trace(s, es) && GoesOn(es, t, user) && After(s, es) == s';
    TraceSnoc(s, es, ev);
    assert GoesOn(es + [ev], t, user);
  }

  lemma InvGets(s: State, s': State, t: nat, user: UserId)
    requires Inv(s) && Gets(s, s', t, user)
    ensures Inv(s')
  {
    hide Inv, Enabled, Step;
    var es :| Trace(s, es) && GoesOn(es, t, user) && After(s, es) == s';
    InvRun(s, es);
  }

  // ---------- a share lost ----------

  /** The commit of the claim is next, and it changes the total of the expense. */
  ghost predicate LosesShare(s: State, t: nat, e: nat) {
    && ClaimAt(s, t, Rekeyed) && e in s.expenses
    && Total(FinishStep(s, t).expenses[e].head.splits) != Total(s.expenses[e].head.splits)
  }

  /** Two claims past the membership insert, and no other accept of their user. */
  predicate Pair(s: State, first: nat, second: nat) {
    && ClaimAt(s, first, Joined) && ClaimAt(s, second, Joined) && first != second
    && s.txns[first].user == s.txns[second].user && NoOther(s, first, second)
  }

  predicate NoOther(s: State, first: nat, second: nat)
    requires second in s.txns && s.txns[second].Accepting?
  {
    forall t :: t in s.txns && s.txns[t].Accepting? && s.txns[t].user == s.txns[second].user ==>
      t == first || t == second
  }

  /** Both placeholders hold a share of the expense, that of `second` not zero, and their claimer holds none. */
  predicate Meet(s: State, first: nat, second: nat, e: nat)
    requires Pair(s, first, second) && e in s.expenses
  {
    var splits := s.expenses[e].head.splits;
    && s.txns[first].target.value in splits && s.txns[second].user !in splits
    && Get(splits, s.txns[second].target.value) != 0
  }

  /** The commit changes the total by exactly the share deleted without having been added. */
  lemma LosesWhenLost(s: State, t: nat, e: nat)
    requires Inv(s) && ClaimAt(s, t, Rekeyed) && e in s.expenses
    ensures Total(FinishStep(s, t).expenses[e].head.splits)
         == Total(s.expenses[e].head.splits) - Lost(s.txns[t], e, s.expenses[e].head.splits)
    ensures FinishStep(s, t).expenses[e].head.fields == s.expenses[e].head.fields
  {
    hide MembersOk, InvitesOk, TxOk, Compatible, RowsOk, Total, Swept, MembersAfter;
    TargetIsNobody(s, t);
    SweptTotal(s.expenses, s.txns[t], e);
  }

  // ---------- claims that meet: the second can lose its share ----------

  /** The statements of a claim between its membership insert and its commit. */
  predicate Statement(ev: Event, t: nat) {
    match ev
    case Look(v) => v == t
    case Snap(v) => v == t
    case FindShares(v) => v == t
    case AddShares(v) => v == t
    case DeleteShares(v) => v == t
    case Rekey(v) => v == t
    case _ => false
  }

  /** One more step of a claim, which touches nothing but its own transaction. */
  lemma OwnStep(s: State, s': State, ev: Event, t: nat, keep: nat, user: UserId)
    requires Gets(s, s', keep, user) && Enabled(s', ev) && t in s'.txns
    requires Statement(ev, t)
    ensures Gets(s, Step(s', ev), keep, user)
    ensures t in Step(s', ev).txns && Step(s', ev) == SetTx(s', t, Step(s', ev).txns[t])
  {
    hide Gets, CanAdd, CanRekey, ClaimAt, LookedTx, SnappedTx, RekeyedTx, Both;
    GetsStep(s, s', ev, keep, user);
  }

  /** A claim runs its two SELECTs, and its UPDATE finds its rows. */
  lemma RunFind(s: State, t: nat, keep: nat, user: UserId) returns (s': State, tx: Tx)
    requires ClaimAt(s, t, Joined)
    ensures Gets(s, s', keep, user) && s' == SetTx(s, t, tx)
    ensures tx.Accepting? && tx == s.txns[t].(stage := Adding, folds := tx.folds, found := Both(s.expenses, s.txns[t]))
  {
    hide Gets, Holding, Step, Enabled;
    GetsSelf(s, keep, user);
    SelectSteps(s, t);
    OwnStep(s, s, Look(t), t, keep, user);
    var s1 := Step(s, Look(t));
    OwnStep(s, s1, Snap(t), t, keep, user);
    var s2 := Step(s1, Snap(t));
    OwnStep(s, s2, FindShares(t), t, keep, user);
    s' := Step(s2, FindShares(t));
    tx := s'.txns[t];
    assert s'.txns == s.txns[t := tx];
  }

  lemma SelectSteps(s: State, t: nat)
    requires ClaimAt(s, t, Joined)
    ensures Enabled(s, Look(t))
    ensures var s1 := Step(s, Look(t)); ClaimAt(s1, t, Looked) && Enabled(s1, Snap(t))
    ensures var s2 := Step(Step(s, Look(t)), Snap(t));
            && ClaimAt(s2, t, Snapped) && Enabled(s2, FindShares(t)) && s2.expenses == s.expenses
            && s2.txns[t] == s.txns[t].(stage := Snapped, folds := s2.txns[t].folds)
            && Step(s2, FindShares(t)).txns[t] == s2.txns[t].(stage := Adding, found := Both(s.expenses, s.txns[t]))
  {
    hide Holding;
  }

  /** A claim writes the rows its UPDATE found. */
  lemma RunAdd(s: State, t: nat, keep: nat, user: UserId) returns (s': State, tx: Tx)
    requires CanAdd(s, t)
    ensures Gets(s, s', keep, user) && s' == SetTx(s, t, tx)
    ensures tx.Accepting? && tx == s.txns[t].(stage := Added, added := FoundRows(s, t))
  {
    hide Gets, Both;
    GetsSelf(s, keep, user);
    OwnStep(s, s, AddShares(t), t, keep, user);
    s' := Step(s, AddShares(t));
    tx := s'.txns[t];
  }

  /** A claim runs its DELETE and its re-keying UPDATE. */
  lemma RunRekey(s: State, t: nat, keep: nat, user: UserId) returns (s': State, tx: Tx)
    requires ClaimAt(s, t, Added)
    requires forall t' :: t' in s.txns && t' != t && s.txns[t'].Accepting? && s.txns[t'].user == s.txns[t].user ==>
               s.txns[t'].rekeyed == {}
    ensures Gets(s, s', keep, user) && s' == SetTx(s, t, tx)
    ensures var both := Both(s.expenses, s.txns[t]);
            tx == s.txns[t].(stage := Rekeyed, deleted := both,
              rekeyed := Holding(s.expenses, s.txns[t].target.value) - both)
  {
    hide Gets, Holding, Step, Enabled;
    GetsSelf(s, keep, user);
    RekeySteps(s, t);
    OwnStep(s, s, DeleteShares(t), t, keep, user);
    var s1 := Step(s, DeleteShares(t));
    OwnStep(s, s1, Rekey(t), t, keep, user);
    s' := Step(s1, Rekey(t));
    tx := s'.txns[t];
    assert s'.txns == s.txns[t := tx];
  }

  lemma RekeySteps(s: State, t: nat)
    requires ClaimAt(s, t, Added)
    requires forall t' :: t' in s.txns && t' != t && s.txns[t'].Accepting? && s.txns[t'].user == s.txns[t].user ==>
               s.txns[t'].rekeyed == {}
    ensures Enabled(s, DeleteShares(t))
    ensures var both := Both(s.expenses, s.txns[t]);
            var s1 := Step(s, DeleteShares(t));
            && t in s1.txns && s1.txns[t] == s.txns[t].(stage := Deleted, deleted := both) && s1.expenses == s.expenses
            && Enabled(s1, Rekey(t))
            && Step(s1, Rekey(t)).txns[t]
               == s1.txns[t].(stage := Rekeyed, rekeyed := Holding(s.expenses, s.txns[t].target.value) - both)
  {
    hide Holding;
  }

  lemma GetsTrans(a: State, b: State, c: State, t: nat, user: UserId)
    requires Gets(a, b, t, user) && Gets(b, c, t, user)
    ensures Gets(a, c, t, user)
  {
    hide LeavesBe;
    var es :| Trace(a, es) && GoesOn(es, t, user) && After(a, es) == b;
    var fs :| Trace(b, fs) && GoesOn(fs, t, user) && After(b, fs) == c;
    TraceConcat(a, es, fs);
    assert GoesOn(es + fs, t, user);
  }

  lemma {:induction false} TraceConcat(s: State, a: seq<Event>, b: seq<Event>)
    requires Trace(s, a) && Trace(After(s, a), b)
    ensures Trace(s, a + b) && After(s, a + b) == After(After(s, a), b)
    decreases |a|
  {
    hide Enabled, Step;
    if a == [] {
      assert a + b == b;
    } else {
      TraceConcat(Step(s, a[0]), a[1..], b);
      assert (a + b)[1..] == a[1..] + b;
    }
  }

  lemma NothingWritten(s: State, t: nat)
    requires Inv(s) && ClaimAt(s, t, Joined)
    ensures s.txns[t].found == s.txns[t].added == s.txns[t].deleted == s.txns[t].rekeyed == {}
  {
    hide TxOk, Compatible, MembersOk, InvitesOk, ClaimRowsOk;
  }

  /**
   `first` is about to commit, having re-keyed a split of `e` to the user, and the UPDATE of
   `second` has already chosen its rows.
   */
  predicate Overlapped(s: State, first: nat, second: nat, e: nat) {
    && ClaimAt(s, first, Rekeyed) && (ClaimAt(s, second, Adding) || ClaimAt(s, second, Added)) && first != second
    && s.txns[first].user == s.txns[second].user && e in s.txns[first].rekeyed
    && e in Holding(s.expenses, s.txns[second].target.value) && NoOther(s, first, second)
  }

  /** The first claim re-keys its rows after the second has chosen the rows of its UPDATE. */
  lemma MeetingOverlaps(s: State, first: nat, second: nat, e: nat) returns (s': State)
    requires Inv(s) && Pair(s, first, second) && e in s.expenses && Meet(s, first, second, e)
    ensures Gets(s, s', second, s.txns[second].user) && Overlapped(s', first, second, e)
    ensures s'.expenses == s.expenses && s'.txns[second].target == s.txns[second].target
    ensures s'.txns[second].user == s.txns[second].user
  {
    hide Inv, Gets, Holding;
    var user := s.txns[second].user;
    NothingWritten(s, first);
    NothingWritten(s, second);
    var s1, a := RunFind(s, second, second, user);
    var s2, b := RunFind(s1, first, second, user);
    var s3, c := RunAdd(s2, first, second, user);
    var s4, d := RunRekey(s3, first, second, user);
    GetsTrans(s, s1, s2, second, user);
    GetsTrans(s, s2, s3, second, user);
    GetsTrans(s, s3, s4, second, user);
    s' := s4;
    InHolding(s.expenses, e, s.txns[first].target.value);
    InHolding(s.expenses, e, s.txns[second].target.value);
    InHolding(s.expenses, e, user);
  }

  lemma OverlapRows(s: State, first: nat, second: nat, e: nat)
    requires Inv(s) && Overlapped(s, first, second, e)
    ensures RowsOk(s.expenses, s.txns[first]) && e in s.expenses
    ensures s.txns[first].target != s.txns[second].target
    ensures e !in s.txns[first].deleted && e !in s.txns[first].added
    ensures e !in s.txns[second].added && e !in s.txns[second].found
  {
    hide MembersOk, InvitesOk, TxOk;
    assert Compatible(s.txns[first], s.txns[second]);
    assert RowsOk(s.expenses, s.txns[second]);
  }

  /** The first claim commits: the user now holds a split of the expense, with its total kept. */
  lemma FirstCommits(s: State, first: nat, second: nat, e: nat) returns (s1: State)
    requires Inv(s) && Overlapped(s, first, second, e)
    ensures Gets(s, s1, second, s.txns[second].user) && Inv(s1)
    ensures s1.txns == s.txns - {first} && e in s.expenses && e in s1.expenses
    ensures var p := s.txns[second].target.value;
            && Get(s1.expenses[e].head.splits, p) == Get(s.expenses[e].head.splits, p)
            && Total(s1.expenses[e].head.splits) == Total(s.expenses[e].head.splits)
            && s1.expenses[e].head.fields == s.expenses[e].head.fields
            && e in Both(s1.expenses, s.txns[second]) && e !in s.txns[second].added && e !in s.txns[second].found
  {
    hide Inv, Total, Compatible, MembersOk, InvitesOk, TxOk, Holding, RowsOk, MembersAfter, Gets;
    s1 := Step(s, Finish(first));
    InvStep(s, Finish(first));
    GetsSelf(s, second, s.txns[second].user);
    GetsStep(s, s, Finish(first), second, s.txns[second].user);
    TargetIsNobody(s, first);
    TargetIsNobody(s, second);
    OverlapRows(s, first, second, e);
    SweptTotal(s.expenses, s.txns[first], e);
    SweptHolding(s.expenses, s.txns[first], s.txns[second].target.value);
    SweptHolding(s.expenses, s.txns[first], s.txns[second].user);
  }

  /** The second claim, alone now, writes what it had found, deletes more, and is about to commit. */
  lemma SecondRuns(s: State, t: nat, e: nat) returns (s': State)
    requires Inv(s) && (ClaimAt(s, t, Adding) || ClaimAt(s, t, Added)) && e in Both(s.expenses, s.txns[t])
    requires e !in s.txns[t].found && e !in s.txns[t].added && NoOther(s, t, t)
    ensures Gets(s, s', t, s.txns[t].user) && s'.expenses == s.expenses && ClaimAt(s', t, Rekeyed)
    ensures s'.txns.Keys == s.txns.Keys
    ensures s'.txns[t].target == s.txns[t].target && e in s'.txns[t].deleted && e !in s'.txns[t].added
  {
    hide Inv, Gets, Holding;
    var user := s.txns[t].user;
    var s1 := s;
    GetsSelf(s, t, user);
    if s.txns[t].stage == Adding {
      var tx;
      s1, tx := RunAdd(s, t, t, user);
    }
    var tx';
    s', tx' := RunRekey(s1, t, t, user);
    GetsTrans(s, s1, s', t, user);
  }

  /** From any such state the second claim can go on until its commit loses its placeholder's share. */
  lemma OverlapLosesShare(s: State, first: nat, second: nat, e: nat) returns (s': State)
    requires Inv(s) && Overlapped(s, first, second, e)
    ensures Gets(s, s', second, s.txns[second].user) && ClaimAt(s', second, Rekeyed)
    ensures s'.txns.Keys == s.txns.Keys - {first} && e in s.expenses && e in s'.expenses
    ensures var share := Get(s.expenses[e].head.splits, s.txns[second].target.value);
            && Total(FinishStep(s', second).expenses[e].head.splits) == Total(s.expenses[e].head.splits) - share
            && FinishStep(s', second).expenses[e].head.fields == s.expenses[e].head.fields
            && (share != 0 ==> LosesShare(s', second, e))
  {
    hide Inv, Holding, Total, FinishStep, Gets;
    var s1 := FirstCommits(s, first, second, e);
    s' := SecondRuns(s1, second, e);
    InvGets(s1, s', second, s.txns[second].user);
    GetsTrans(s, s1, s', second, s.txns[second].user);
    LosesWhenLost(s', second, e);
  }

  // ---------- claims that do not meet: neither can ----------

  /** The UPDATE of the claim has not chosen its rows yet, or knows this one. */
  predicate Knows(tx: Tx, e: nat) {
    tx.Accepting? && (tx.stage == Adding ==> e in tx.found) && (Past(tx.stage, Added) ==> e in tx.added)
  }

  /** Why the claim of `p` cannot lose a share of this expense, `q` being the placeholder of the other claim. */
  predicate Spared(splits: map<UserId, int>, tx: Tx, e: nat, q: UserId)
    requires tx.Accepting? && tx.target.Some?
  {
    || Get(splits, tx.target.value) == 0
    || (tx.user in splits && Knows(tx, e))
    || (tx.user !in splits && q !in splits && e !in tx.deleted)
  }

  /** `t` is an open claim, and other accepts of its user are claims of `q`. */
  predicate Beside(s: State, t: nat, q: UserId) {
    && t in s.txns && s.txns[t].Accepting? && s.txns[t].target.Some? && Past(s.txns[t].stage, Joined)
    && q !in s.accounts
    && forall t' :: t' in s.txns && t' != t && s.txns[t'].Accepting? && s.txns[t'].user == s.txns[t].user ==>
         s.txns[t'].target == Some(q)
  }

  /** What a statement of the claim leaves in its transaction. */
  lemma StatementTx(s: State, ev: Event, t: nat)
    requires Enabled(s, ev) && Statement(ev, t)
    ensures t in s.txns && s.txns[t].Accepting? && s.txns[t].target.Some?
    ensures Step(s, ev).expenses == s.expenses && t in Step(s, ev).txns
    ensures var both, tx, tx' := Both(s.expenses, s.txns[t]), s.txns[t], Step(s, ev).txns[t];
            && tx'.Accepting? && tx'.target == tx.target && tx'.user == tx.user && Past(tx'.stage, tx.stage)
            && tx'.found == (if ev.FindShares? then both else tx.found)
            && tx'.added == (if ev.AddShares? then tx.found * both else tx.added)
            && tx'.deleted == (if ev.DeleteShares? then both else tx.deleted)
            && (tx'.stage == Adding <==> ev.FindShares?)
            && (Past(tx'.stage, Added) ==> ev.AddShares? || Past(tx.stage, Added))
            && (ev.AddShares? ==> tx.stage == Adding)
  {
    hide Both, Holding, CanLock;
  }

  predicate SameTx(tx: Tx, tx': Tx) {
    && (tx.Accepting? <==> tx'.Accepting?)
    && (tx.Accepting? ==> tx'.user == tx.user && tx'.target == tx.target && Past(tx'.stage, tx.stage))
  }

  /** An open transaction stays the one it is. */
  lemma TxKept(s: State, ev: Event, t: nat)
    requires Enabled(s, ev) && t in s.txns && t in Step(s, ev).txns
    ensures SameTx(s.txns[t], Step(s, ev).txns[t])
  {
    hide Enabled, Step, Statement;
    if Statement(ev, t) { StatementTx(s, ev, t); } else { OtherKept(s, ev, t); }
  }

  lemma OtherKept(s: State, ev: Event, t: nat)
    requires Enabled(s, ev) && t in s.txns && t in Step(s, ev).txns && !Statement(ev, t)
    ensures SameTx(s.txns[t], Step(s, ev).txns[t])
  {
    hide CanMint, PostedExpense, Both, IsActive, Claimable, CanLock, SweptExpenses, MembersAfter, Valid, Writes,
         Holding, FoundRows, LookedTx, SnappedTx, RekeyedTx, CanAdd, CanRekey;
  }

  lemma TxNew(s: State, ev: Event, t: nat)
    requires Enabled(s, ev) && t !in s.txns && t in Step(s, ev).txns && Step(s, ev).txns[t].Accepting?
    ensures ev.BeginAccept? && Step(s, ev).txns[t].user == ev.user
  {
    hide CanMint, PostedExpense, Both, IsActive, Claimable, CanLock, SweptExpenses, MembersAfter, Valid, Writes,
         Holding, FoundRows, CanAccept;
  }

  lemma TxStays(s: State, ev: Event, t: nat)
    requires Enabled(s, ev) && t in s.txns && s.txns[t].Accepting? && ev != Abort(t) && ev != Finish(t)
    ensures t in Step(s, ev).txns
  {
    hide CanMint, PostedExpense, Both, IsActive, Claimable, CanLock, SweptExpenses, MembersAfter, Valid, Writes,
         Holding, FoundRows, LookedTx, SnappedTx, RekeyedTx;
  }

  lemma BesideStep(s: State, ev: Event, t: nat, q: UserId)
    requires Enabled(s, ev) && Beside(s, t, q) && LeavesBe(ev, t, s.txns[t].user)
    ensures Beside(Step(s, ev), t, q) && Step(s, ev).txns[t].user == s.txns[t].user
    ensures Step(s, ev).txns[t].target == s.txns[t].target
  {
    hide Enabled, Step;
    AccountsStep(s, ev);
    TxStays(s, ev, t);
    TxKept(s, ev, t);
    var s', user := Step(s, ev), s.txns[t].user;
    forall t' | t' in s'.txns && t' != t && s'.txns[t'].Accepting? && s'.txns[t'].user == user
      ensures s'.txns[t'].target == Some(q)
    {
      if t' in s.txns { TxKept(s, ev, t'); } else { TxNew(s, ev, t'); }
    }
  }

  /** A posting of the expense leaves out the placeholder that the claim holds. */
  lemma PostSpares(s: State, t': nat, e: nat, note: Note, input: SplitInput, t: nat, q: UserId)
    requires Inv(s) && CanPost(s, t', e, note, input) && Beside(s, t, q)
    ensures Get(PostedExpense(s, t', e, note, input).head.splits, s.txns[t].target.value) == 0
  {
    hide TxOk, RowsOk, MembersOk, InvitesOk, Valid, SplitOf, PostedExpense, Writes, Total;
    PostedHeadAt(s, t', e, note, input);
    SplitSumsToTotal(input);
    assert Compatible(s.txns[t], s.txns[t']);
  }

  /** What another claim's commit does to the three users' splits. */
  lemma SweptAt(tx: Tx, e: nat, splits: map<UserId, int>, u: UserId)
    requires tx.Accepting? && tx.target.Some? && u != tx.target.value
    ensures u != tx.user ==>
              (u in Swept(tx, e, splits) <==> u in splits) && Get(Swept(tx, e, splits), u) == Get(splits, u)
    ensures u in splits ==> u in Swept(tx, e, splits)
    ensures u !in splits && e !in tx.added && e !in tx.rekeyed ==> u !in Swept(tx, e, splits)
  {
  }

  /** A claim of a placeholder without a split of the expense writes none there. */
  lemma NoRowsOf(expenses: Expenses, tx: Tx, e: nat)
    requires RowsOk(expenses, tx) && tx.Accepting? && tx.target.Some? && e in expenses
    requires tx.target.value !in expenses[e].head.splits
    ensures e !in tx.added && e !in tx.rekeyed
  {
    hide Holding;
    InHolding(expenses, e, tx.target.value);
  }

  lemma FinishSpares(s: State, t': nat, t: nat, q: UserId, e: nat)
    requires Inv(s) && Enabled(s, Finish(t')) && t' != t && Beside(s, t, q) && e in s.expenses
    requires Spared(s.expenses[e].head.splits, s.txns[t], e, q)
    ensures e in FinishStep(s, t').expenses && Spared(FinishStep(s, t').expenses[e].head.splits, s.txns[t], e, q)
  {
    hide TxOk, RowsOk, MembersOk, InvitesOk, Swept, MembersAfter, Knows;
    var tx, other := s.txns[t], s.txns[t'];
    TargetIsNobody(s, t);
    TargetIsNobody(s, t');
    if other.target.Some? {
      assert Compatible(tx, other);
      var splits := s.expenses[e].head.splits;
      SweptAt(other, e, splits, tx.target.value);
      SweptAt(other, e, splits, tx.user);
      if q !in splits {
        if other.target.value == q { NoRowsOf(s.expenses, other, e); SweptGone(other, e, splits); }
        else { SweptAt(other, e, splits, q); }
      }
    }
  }

  lemma SweptGone(tx: Tx, e: nat, splits: map<UserId, int>)
    requires tx.Accepting? && tx.target.Some? && tx.target.value != tx.user && tx.target.value !in splits
    ensures tx.target.value !in Swept(tx, e, splits)
  {
  }

  lemma OwnSpares(s: State, ev: Event, t: nat, q: UserId, e: nat)
    requires Enabled(s, ev) && Statement(ev, t) && Beside(s, t, q) && e in s.expenses
    requires Spared(s.expenses[e].head.splits, s.txns[t], e, q)
    ensures Step(s, ev).expenses == s.expenses && t in Step(s, ev).txns && Step(s, ev).txns[t].Accepting?
    ensures Step(s, ev).txns[t].target == s.txns[t].target && Step(s, ev).txns[t].user == s.txns[t].user
    ensures Spared(s.expenses[e].head.splits, Step(s, ev).txns[t], e, q)
  {
    hide Step, Enabled, Statement, Holding, Beside;
    StatementTx(s, ev, t);
    InHolding(s.expenses, e, s.txns[t].target.value);
    InHolding(s.expenses, e, s.txns[t].user);
  }

  /** Every other event leaves the claim as it is, and the expense unless it commits. */
  lemma OtherSpares(s: State, ev: Event, t: nat, q: UserId, e: nat)
    requires Enabled(s, ev) && Beside(s, t, q) && e in s.expenses && LeavesBe(ev, t, s.txns[t].user)
    requires !Statement(ev, t)
    ensures t in Step(s, ev).txns && Step(s, ev).txns[t] == s.txns[t] && e in Step(s, ev).expenses
    ensures !ev.Finish? && !(ev.Post? && ev.expense == e) ==> Step(s, ev).expenses[e] == s.expenses[e]
  {
    hide CanMint, PostedExpense, Both, IsActive, Claimable, CanLock, SweptExpense, MembersAfter, Valid, Writes,
         Holding, LookedTx, SnappedTx, RekeyedTx, FoundRows, Beside;
    BesideIn(s, t, q);
  }

  lemma BesideIn(s: State, t: nat, q: UserId)
    requires Beside(s, t, q)
    ensures t in s.txns && s.txns[t].Accepting? && s.txns[t].target.Some? && Past(s.txns[t].stage, Joined)
  {
  }

  lemma SparedStep(s: State, ev: Event, t: nat, q: UserId, e: nat)
    requires Inv(s) && Enabled(s, ev) && Beside(s, t, q) && e in s.expenses && LeavesBe(ev, t, s.txns[t].user)
    requires Spared(s.expenses[e].head.splits, s.txns[t], e, q)
    ensures Beside(Step(s, ev), t, q) && e in Step(s, ev).expenses
    ensures Spared(Step(s, ev).expenses[e].head.splits, Step(s, ev).txns[t], e, q)
    ensures Step(s, ev).txns[t].user == s.txns[t].user
  {
    hide Inv, Beside, Spared, Step, Enabled, Knows, LeavesBe, FinishStep, PostedExpense, CanPost, Statement;
    BesideIn(s, t, q);
    BesideStep(s, ev, t, q);
    BesideIn(Step(s, ev), t, q);
    if Statement(ev, t) {
      OwnSpares(s, ev, t, q, e);
    } else {
      OtherSpares(s, ev, t, q, e);
      if ev.Finish? {
        FinishIsStep(s, ev.t);
        assert ev.t != t by { NotItsOwn(ev, t, s.txns[t].user); }
        FinishSpares(s, ev.t, t, q, e);
      } else if ev.Post? && ev.expense == e {
        PostIsStep(s, ev.t, e, ev.note, ev.input);
        PostSpares(s, ev.t, e, ev.note, ev.input, t, q);
        ZeroSpares(Step(s, ev).expenses[e].head.splits, s.txns[t], e, q);
      }
    }
  }

  lemma NotItsOwn(ev: Event, t: nat, user: UserId)
    requires LeavesBe(ev, t, user) && ev.Finish?
    ensures ev.t != t
  {
  }

  lemma ZeroSpares(splits: map<UserId, int>, tx: Tx, e: nat, q: UserId)
    requires tx.Accepting? && tx.target.Some? && Get(splits, tx.target.value) == 0
    ensures Spared(splits, tx, e, q)
  {
  }

  lemma FinishIsStep(s: State, t: nat)
    requires Enabled(s, Finish(t))
    ensures Step(s, Finish(t)) == FinishStep(s, t)
  {
    hide FinishStep;
  }

  lemma PostIsStep(s: State, t: nat, e: nat, note: Note, input: SplitInput)
    requires Enabled(s, Post(t, e, note, input))
    ensures CanPost(s, t, e, note, input) && e in Step(s, Post(t, e, note, input)).expenses
    ensures Step(s, Post(t, e, note, input)).expenses[e] == PostedExpense(s, t, e, note, input)
  {
    hide CanPost, PostedExpense;
  }

  lemma {:induction false} SparedRun(s: State, es: seq<Event>, t: nat, q: UserId, e: nat)
    requires Inv(s) && Trace(s, es) && Beside(s, t, q) && e in s.expenses && GoesOn(es, t, s.txns[t].user)
    requires Spared(s.expenses[e].head.splits, s.txns[t], e, q)
    ensures Inv(After(s, es)) && Beside(After(s, es), t, q) && e in After(s, es).expenses
    ensures Spared(After(s, es).expenses[e].head.splits, After(s, es).txns[t], e, q)
    decreases |es|
  {
    hide Inv, Enabled, Step, Spared, LeavesBe;
    if es != [] {
      assert es[0] in es && forall ev :: ev in es[1..] ==> ev in es;
      InvStep(s, es[0]);
      SparedStep(s, es[0], t, q, e);
      SparedRun(Step(s, es[0]), es[1..], t, q, e);
    }
  }

  /** A spared claim loses nothing when it commits. */
  lemma SparedKeeps(s: State, t: nat, q: UserId, e: nat)
    requires Inv(s) && Beside(s, t, q) && ClaimAt(s, t, Rekeyed) && e in s.expenses
    requires Spared(s.expenses[e].head.splits, s.txns[t], e, q)
    ensures !LosesShare(s, t, e)
  {
    hide Inv, Total, FinishStep;
    LosesWhenLost(s, t, e);
  }

  lemma PairSpared(s: State, first: nat, second: nat, e: nat)
    requires Inv(s) && Pair(s, first, second) && e in s.expenses && !Meet(s, first, second, e)
    ensures Beside(s, second, s.txns[first].target.value)
    ensures Spared(s.expenses[e].head.splits, s.txns[second], e, s.txns[first].target.value)
  {
    hide Inv;
    NothingWritten(s, second);
    TargetIsNobody(s, first);
  }

  /**
   Two claims of one user past the membership insert, the user's only accepts: the second can
   lose its placeholder's share of an expense, whatever happens around the two, if and only if
   both placeholders hold a share of it, that share is not zero, and the user holds none.
   */
  lemma MeetingLosesIff(s: State, first: nat, second: nat, e: nat)
    requires Inv(s) && Pair(s, first, second) && e in s.expenses
    ensures Meet(s, first, second, e) <==>
            exists es :: Trace(s, es) && GoesOn(es, second, s.txns[second].user) && LosesShare(After(s, es), second, e)
  {
    hide Inv, LosesShare, Trace, After, GoesOn, Overlapped, Beside, Spared;
    if Meet(s, first, second, e) {
      var t := MeetingOverlaps(s, first, second, e);
      InvGets(s, t, second, s.txns[second].user);
      var t' := OverlapLosesShare(t, first, second, e);
      GetsTrans(s, t, t', second, s.txns[second].user);
    } else {
      PairSpared(s, first, second, e);
      forall es | Trace(s, es) && GoesOn(es, second, s.txns[second].user)
        ensures !LosesShare(After(s, es), second, e)
      {
        SparedRun(s, es, second, s.txns[first].target.value, e);
        SparedCommit(After(s, es), second, s.txns[first].target.value, e);
      }
    }
  }

  lemma SparedCommit(s: State, t: nat, q: UserId, e: nat)
    requires Inv(s) && Beside(s, t, q) && e in s.expenses && Spared(s.expenses[e].head.splits, s.txns[t], e, q)
    ensures !LosesShare(s, t, e)
  {
    hide Inv, Beside, Spared, FinishStep, Total;
    if ClaimAt(s, t, Rekeyed) { SparedKeeps(s, t, q, e); }
  }
}
