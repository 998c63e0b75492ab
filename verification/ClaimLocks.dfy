/**
 What the row locks of ClaimProtocol keep in every interleaving of accepts, claims and postings:
 a placeholder is claimed once and for good, no invite is used more often than it allows, and a
 committed claim leaves no split under its placeholder.
 */
module ClaimLocks {
  import opened Text
  import opened Sums
  import opened Splits
  import opened Balances
  import opened Claim
  import opened ClaimProtocol

  lemma CompatibleSymmetric(a: Tx, b: Tx)
    ensures Compatible(a, b) <==> Compatible(b, a)
  {
  }

  /** Replacing (or opening) one transaction. */
  lemma InvSetTx(s: State, t: nat, tx: Tx)
    requires Inv(s) && TxOk(s.accounts, s.members, s.invites, tx) && RowsOk(s.expenses, tx)
    requires forall t' :: t' in s.txns && t' != t ==> Compatible(tx, s.txns[t'])
    ensures Inv(SetTx(s, t, tx))
  {
    hide TxOk, RowsOk, Compatible, MembersOk, InvitesOk;
    forall t' | t' in s.txns && t' != t
      ensures Compatible(s.txns[t'], tx)
    {
      CompatibleSymmetric(tx, s.txns[t']);
    }
  }

  lemma InvDrop(s: State, t: nat)
    requires Inv(s)
    ensures Inv(s.(txns := s.txns - {t}))
  {
    hide TxOk, RowsOk, Compatible, MembersOk, InvitesOk;
  }

  // ---------- postings ----------

  lemma BeginPostKeeps(s: State, t: nat)
    requires Inv(s) && t !in s.txns
    ensures Inv(SetTx(s, t, Posting({}, None)))
  {
    hide TxOk, Inv;
    assert TxOk(s.accounts, s.members, s.invites, Posting({}, None)) by { FreshPosting(s, None); }
    InvSetTx(s, t, Posting({}, None));
  }

  lemma FreshPosting(s: State, edit: Option<(nat, Head)>)
    ensures TxOk(s.accounts, s.members, s.invites, Posting({}, edit))
  {
  }

  lemma BeginEditKeeps(s: State, t: nat, e: nat, editor: UserId)
    requires Inv(s) && CanEdit(s, t, e, editor)
    ensures Inv(SetTx(s, t, Posting({}, Some((e, s.expenses[e].head)))))
  {
    hide TxOk, Inv, IsActive;
    FreshPosting(s, Some((e, s.expenses[e].head)));
    InvSetTx(s, t, Posting({}, Some((e, s.expenses[e].head))));
  }

  lemma LockMemberKeeps(s: State, t: nat, u: UserId)
    requires Inv(s) && CanShare(s, t, u)
    ensures Inv(SetTx(s, t, s.txns[t].(held := s.txns[t].held + {u})))
  {
    hide RowsOk, MembersOk, InvitesOk, IsActive;
    var tx := s.txns[t].(held := s.txns[t].held + {u});
    forall t' | t' in s.txns && t' != t
      ensures Compatible(tx, s.txns[t'])
    {
      assert Compatible(s.txns[t], s.txns[t']) && !LocksForUpdate(s.txns[t'], u);
    }
    assert RowsOk(s.expenses, tx) by { PostingRows(s.expenses, tx); }
    InvSetTx(s, t, tx);
  }

  lemma PostingRows(expenses: Expenses, tx: Tx)
    requires tx.Posting?
    ensures RowsOk(expenses, tx)
  {
  }

  lemma HoldingPut(expenses: Expenses, e: nat, ex: Expense, u: UserId)
    ensures Holding(expenses[e := ex], u) == if u in ex.head.splits then Holding(expenses, u) + {e}
            else Holding(expenses, u) - {e}
  {
  }

  /** A posting that commits leaves the rows other transactions rely on as they are. */
  lemma PostRows(expenses: Expenses, e: nat, ex: Expense, tx: Tx)
    requires RowsOk(expenses, tx) && !Writes(tx, e)
    requires tx.Accepting? && tx.target.Some? && tx.stage != Begun ==> tx.target.value !in ex.head.splits
    ensures RowsOk(expenses[e := ex], tx)
  {
    hide Holding;
    if tx.Accepting? && tx.target.Some? {
      HoldingPut(expenses, e, ex, tx.target.value);
      HoldingPut(expenses, e, ex, tx.user);
    }
  }

  /** An expense that does not exist yet has no written rows. */
  lemma NewExpenseUnwritten(expenses: Expenses, e: nat, tx: Tx)
    requires RowsOk(expenses, tx) && e !in expenses
    ensures !Writes(tx, e)
  {
  }

  lemma PostedHeadAt(s: State, t: nat, e: nat, note: Note, input: SplitInput)
    requires CanPost(s, t, e, note, input)
    ensures PostedExpense(s, t, e, note, input).head == PostedHead(note, input)
  {
    hide Valid, SplitOf;
  }

  lemma PostKeeps(s: State, t: nat, e: nat, note: Note, input: SplitInput)
    requires Inv(s) && CanPost(s, t, e, note, input)
    ensures Inv(s.(expenses := s.expenses[e := PostedExpense(s, t, e, note, input)], txns := s.txns - {t}))
  {
    hide TxOk, MembersOk, InvitesOk, RowsOk, Writes, PostedExpense, Valid, SplitOf, Total;
    var ex := PostedExpense(s, t, e, note, input);
    PostedHeadAt(s, t, e, note, input);
    SplitSumsToTotal(input);
    forall t' | t' in s.txns && t' != t
      ensures RowsOk(s.expenses[e := ex], s.txns[t'])
    {
      if e !in s.expenses { NewExpenseUnwritten(s.expenses, e, s.txns[t']); }
      assert Compatible(s.txns[t'], s.txns[t]);
      PostRows(s.expenses, e, ex, s.txns[t']);
    }
  }

  // ---------- accepts ----------

  lemma BeginAcceptKeeps(s: State, t: nat, i: nat, user: UserId, newcomer: bool)
    requires Inv(s) && CanAccept(s, t, i, user)
    ensures Inv(SetTx(s, t, Accepting(i, user, s.invites[i].target, newcomer, false, Begun, map[], {}, {}, {}, {})))
  {
    hide MembersOk, InvitesOk, IsActive, Claimable;
    InvSetTx(s, t, Accepting(i, user, s.invites[i].target, newcomer, false, Begun, map[], {}, {}, {}, {}));
  }

  /** A step that moves an accept on without taking a lock. */
  lemma AdvanceKeeps(s: State, t: nat, tx: Tx)
    requires Inv(s) && t in s.txns && s.txns[t].Accepting? && tx.Accepting?
    requires s.txns[t].stage != Begun && tx.stage != Begun && Past(s.txns[t].stage, Joined) && RowsOk(s.expenses, tx)
    requires tx == s.txns[t].(stage := tx.stage, folds := tx.folds, found := tx.found, added := tx.added,
                              deleted := tx.deleted, rekeyed := tx.rekeyed)
    requires forall t' :: t' in s.txns && t' != t && s.txns[t'].Accepting? && s.txns[t'].user == tx.user ==>
               tx.added !! s.txns[t'].added && tx.rekeyed !! s.txns[t'].rekeyed
    ensures Inv(SetTx(s, t, tx))
  {
    hide RowsOk, MembersOk, InvitesOk, IsActive, Claimable;
    forall t' | t' in s.txns && t' != t
      ensures Compatible(tx, s.txns[t'])
    {
      assert Compatible(s.txns[t], s.txns[t']);
    }
    InvSetTx(s, t, tx);
  }

  /** The rows of a claim are disjoint from those of another claim of the user. */
  lemma DisjointRows(s: State, t: nat, t': nat)
    requires Inv(s) && t in s.txns && t' in s.txns && t != t' && s.txns[t].Accepting? && s.txns[t'].Accepting?
    requires s.txns[t].user == s.txns[t'].user
    ensures s.txns[t].added !! s.txns[t'].added && s.txns[t].rekeyed !! s.txns[t'].rekeyed
  {
    hide TxOk, RowsOk, MembersOk, InvitesOk;
    assert Compatible(s.txns[t], s.txns[t']);
  }

  lemma LockTargetKeeps(s: State, t: nat)
    requires Inv(s) && Enabled(s, LockTarget(t))
    ensures Inv(SetTx(s, t, s.txns[t].(stage := Locked)))
  {
    hide MembersOk, InvitesOk, Holding, IsActive;
    var tx := s.txns[t].(stage := Locked);
    forall t' | t' in s.txns && t' != t
      ensures Compatible(tx, s.txns[t'])
    {
      assert Compatible(s.txns[t], s.txns[t']) && !LocksForUpdate(s.txns[t'], tx.target.value)
             && !LocksShared(s.txns[t'], tx.target.value);
    }
    InvSetTx(s, t, tx);
  }

  lemma JoinKeeps(s: State, t: nat, joining: bool)
    requires Inv(s) && CanJoin(s, t) && joining == !IsActive(s.members, s.txns[t].user)
    ensures Inv(SetTx(s, t, s.txns[t].(stage := Joined, joining := joining)))
  {
    hide MembersOk, InvitesOk, Holding, IsActive, Claimable;
    var tx := s.txns[t].(stage := Joined, joining := joining);
    forall t' | t' in s.txns && t' != t
      ensures Compatible(tx, s.txns[t'])
    {
      assert Compatible(s.txns[t], s.txns[t']);
    }
    InvSetTx(s, t, tx);
  }

  lemma LookKeeps(s: State, t: nat)
    requires Inv(s) && ClaimAt(s, t, Joined)
    ensures Inv(SetTx(s, t, LookedTx(s, t)))
  {
    hide TxOk, MembersOk, InvitesOk, Holding, Compatible;
    forall t' | t' in s.txns && t' != t && s.txns[t'].Accepting? && s.txns[t'].user == s.txns[t].user {
      DisjointRows(s, t, t');
    }
    AdvanceKeeps(s, t, LookedTx(s, t));
  }

  lemma SnapKeeps(s: State, t: nat)
    requires Inv(s) && ClaimAt(s, t, Looked)
    ensures Inv(SetTx(s, t, SnappedTx(s, t)))
  {
    hide TxOk, MembersOk, InvitesOk, Holding, Compatible;
    forall t' | t' in s.txns && t' != t && s.txns[t'].Accepting? && s.txns[t'].user == s.txns[t].user {
      DisjointRows(s, t, t');
    }
    AdvanceKeeps(s, t, SnappedTx(s, t));
  }

  lemma FindSharesKeeps(s: State, t: nat)
    requires Inv(s) && ClaimAt(s, t, Snapped)
    ensures Inv(SetTx(s, t, s.txns[t].(stage := Adding, found := Both(s.expenses, s.txns[t]))))
  {
    hide TxOk, MembersOk, InvitesOk, Holding, Compatible;
    forall t' | t' in s.txns && t' != t && s.txns[t'].Accepting? && s.txns[t'].user == s.txns[t].user {
      DisjointRows(s, t, t');
    }
    AdvanceKeeps(s, t, s.txns[t].(stage := Adding, found := Both(s.expenses, s.txns[t])));
  }

  lemma AddSharesKeeps(s: State, t: nat)
    requires Inv(s) && CanAdd(s, t)
    ensures Inv(SetTx(s, t, s.txns[t].(stage := Added, added := FoundRows(s, t))))
  {
    hide TxOk, MembersOk, InvitesOk, Holding, Compatible;
    forall t' | t' in s.txns && t' != t && s.txns[t'].Accepting? && s.txns[t'].user == s.txns[t].user {
      DisjointRows(s, t, t');
    }
    AdvanceKeeps(s, t, s.txns[t].(stage := Added, added := FoundRows(s, t)));
  }

  lemma DeleteSharesKeeps(s: State, t: nat)
    requires Inv(s) && ClaimAt(s, t, Added)
    ensures Inv(SetTx(s, t, s.txns[t].(stage := Deleted, deleted := Both(s.expenses, s.txns[t]))))
  {
    hide TxOk, MembersOk, InvitesOk, Holding, Compatible;
    forall t' | t' in s.txns && t' != t && s.txns[t'].Accepting? && s.txns[t'].user == s.txns[t].user {
      DisjointRows(s, t, t');
    }
    AdvanceKeeps(s, t, s.txns[t].(stage := Deleted, deleted := Both(s.expenses, s.txns[t])));
  }

  lemma RekeyKeeps(s: State, t: nat)
    requires Inv(s) && CanRekey(s, t)
    ensures Inv(SetTx(s, t, RekeyedTx(s, t)))
  {
    hide TxOk, MembersOk, InvitesOk, Holding, Compatible;
    forall t' | t' in s.txns && t' != t && s.txns[t'].Accepting? && s.txns[t'].user == s.txns[t].user {
      DisjointRows(s, t, t');
    }
    AdvanceKeeps(s, t, RekeyedTx(s, t));
  }

  // ---------- the commit of an accept ----------

  /** The split rows after a claim: the placeholder's are gone, re-keyed ones are the claimer's. */
  lemma SweptHolding(expenses: Expenses, tx: Tx, u: UserId)
    requires RowsOk(expenses, tx) && tx.Accepting? && tx.target.Some? && tx.target.value != tx.user
             && Past(tx.stage, Rekeyed)
    ensures Holding(SweptExpenses(tx, expenses), u)
         == if u == tx.target.value then {} else if u == tx.user then Holding(expenses, u) + tx.rekeyed
           else Holding(expenses, u)
  {
    hide Holding;
    var after := SweptExpenses(tx, expenses);
    forall e
      ensures e in Holding(after, u) <==>
              if u == tx.target.value then false
              else if u == tx.user then e in Holding(expenses, u) || e in tx.rekeyed else e in Holding(expenses, u)
    {
      InHolding(expenses, e, tx.target.value);
      InHolding(expenses, e, tx.user);
      InHolding(expenses, e, u);
      InHolding(after, e, u);
    }
  }

  lemma InHolding(expenses: Expenses, e: nat, u: UserId)
    ensures e in Holding(expenses, u) <==> e in expenses && u in expenses[e].head.splits
  {
  }

  /** A commit leaves the rows of the other open claims as they are. */
  lemma SweptRows(expenses: Expenses, tx: Tx, other: Tx)
    requires RowsOk(expenses, tx) && tx.Accepting? && tx.target.Some? && Past(tx.stage, Rekeyed)
    requires RowsOk(expenses, other) && Compatible(tx, other) && tx.target.value != tx.user
    requires other.Accepting? ==>
             other.user != tx.target.value && (other.stage != Begun ==> other.target != Some(tx.user))
    ensures RowsOk(SweptExpenses(tx, expenses), other)
  {
    hide Holding, SweptExpenses;
    if other.Accepting? && other.target.Some? {
      SweptHolding(expenses, tx, other.user);
      SweptHolding(expenses, tx, other.target.value);
    }
  }

  lemma FinishTxOk(s: State, t: nat, t': nat)
    requires Inv(s) && Enabled(s, Finish(t)) && t' in s.txns && t' != t
    ensures var s' := FinishStep(s, t); TxOk(s'.accounts, s'.members, s'.invites, s.txns[t'])
  {
    hide RowsOk, InvitesOk, SweptExpenses;
    assert Compatible(s.txns[t], s.txns[t']);
    TargetIsNobody(s, t);
    TargetIsNobody(s, t');
  }

  /** The users of accepts can sign in; the placeholder a claim holds cannot. */
  lemma TargetIsNobody(s: State, t: nat)
    requires Inv(s) && t in s.txns
    ensures s.txns[t].Accepting? ==>
              s.txns[t].user in s.accounts && s.txns[t].invite in s.invites
                && s.invites[s.txns[t].invite].uses < MAX_USES
    ensures s.txns[t].Accepting? && s.txns[t].target.Some? && s.txns[t].stage != Begun ==>
              s.txns[t].target.value !in s.accounts && Claimable(s.members, s.txns[t].target.value)
  {
    hide RowsOk, InvitesOk, Compatible;
  }

  lemma FinishMembers(s: State, t: nat)
    requires Inv(s) && Enabled(s, Finish(t))
    ensures MembersOk(s.accounts, FinishStep(s, t).members) && InvitesOk(FinishStep(s, t).invites)
  {
    hide RowsOk, Compatible, TxOk, SweptExpenses;
    TargetIsNobody(s, t);
  }

  lemma FinishKeeps(s: State, t: nat)
    requires Inv(s) && Enabled(s, Finish(t))
    ensures Inv(FinishStep(s, t))
  {
    hide RowsOk, Compatible, TxOk, SweptExpenses, MembersOk, InvitesOk, MembersAfter;
    var s' := FinishStep(s, t);
    FinishMembers(s, t);
    TargetIsNobody(s, t);
    forall t' | t' in s'.txns
      ensures TxOk(s'.accounts, s'.members, s'.invites, s'.txns[t']) && RowsOk(s'.expenses, s'.txns[t'])
    {
      FinishTxOk(s, t, t');
      TargetIsNobody(s, t');
      if s.txns[t].target.Some? {
        assert Compatible(s.txns[t], s.txns[t']);
        SweptRows(s.expenses, s.txns[t], s.txns[t']);
      }
    }
  }

  // ---------- invites and placeholders ----------

  lemma AddPlaceholderKeeps(s: State, u: UserId)
    requires Inv(s) && u !in s.members && u !in s.accounts
    ensures Inv(s.(members := s.members[u := Member(true, true, None)]))
  {
    hide RowsOk, Compatible, InvitesOk;
  }

  lemma MintKeeps(s: State, i: nat, target: Option<UserId>)
    requires Inv(s) && CanMint(s, i, target)
    ensures Inv(s.(invites := s.invites[i := Invite(target, true, 0)]))
  {
    hide RowsOk, Compatible, MembersOk, Claimable, IsActive;
  }

  lemma CloseKeeps(s: State, i: nat)
    requires Inv(s) && i in s.invites
    ensures Inv(s.(invites := s.invites[i := s.invites[i].(open := false)]))
  {
    hide RowsOk, Compatible, MembersOk, Claimable, IsActive;
  }

  /** Every step of every transaction keeps the invariant. */
  lemma InvStep(s: State, ev: Event)
    requires Inv(s) && Enabled(s, ev)
    ensures Inv(Step(s, ev))
  {
    hide Inv, SetTx, CanMint, CanEdit, CanShare, CanPost, CanAccept, CanAdd, CanRekey, PostedExpense, FinishStep,
         LookedTx, SnappedTx, RekeyedTx, IsActive, Claimable, CanLock, Both;
    match ev
    case AddPlaceholder(u) => AddPlaceholderKeeps(s, u);
    case Mint(i, target) => MintKeeps(s, i, target);
    case Close(i) => CloseKeeps(s, i);
    case BeginPost(t) => BeginPostKeeps(s, t);
    case BeginEdit(t, e, editor) => BeginEditKeeps(s, t, e, editor);
    case LockMember(t, u) => LockMemberKeeps(s, t, u);
    case Post(t, e, note, input) => PostKeeps(s, t, e, note, input);
    case BeginAccept(t, i, user) => BeginAcceptKeeps(s, t, i, user, user !in s.members);
    case LockTarget(t) => LockTargetKeeps(s, t);
    case Join(t) => JoinKeeps(s, t, !IsActive(s.members, s.txns[t].user));
    case Look(t) => LookKeeps(s, t);
    case Snap(t) => SnapKeeps(s, t);
    case FindShares(t) => FindSharesKeeps(s, t);
    case AddShares(t) => AddSharesKeeps(s, t);
    case DeleteShares(t) => DeleteSharesKeeps(s, t);
    case Rekey(t) => RekeyKeeps(s, t);
    case Finish(t) => FinishKeeps(s, t);
    case Abort(t) => InvDrop(s, t);
  }

  lemma InvStart(s: State)
    requires Start(s)
    ensures Inv(s)
  {
  }

  lemma {:induction false} InvRun(s: State, es: seq<Event>)
    requires Inv(s) && Trace(s, es)
    ensures Inv(After(s, es))
    decreases |es|
  {
    hide Inv, Enabled, Step;
    if es != [] {
      InvStep(s, es[0]);
      InvRun(Step(s, es[0]), es[1..]);
    }
  }

  // ---------- what follows ----------

  /** Invite uses never exceed the maximum, however accepts interleave. */
  lemma UsesWithinMax(s: State, es: seq<Event>, i: nat)
    requires Start(s) && Trace(s, es) && i in After(s, es).invites
    ensures After(s, es).invites[i].uses <= MAX_USES
  {
    hide Enabled, Step, Start, TxOk, RowsOk, Compatible, MembersOk;
    InvStart(s);
    InvRun(s, es);
  }

  /** A claim and a posting never hold the same placeholder; neither do two claims. */
  lemma LocksExclude(s: State, es: seq<Event>, t: nat, t': nat, p: UserId)
    requires Start(s) && Trace(s, es)
    requires var txns := After(s, es).txns; t in txns && t' in txns && t != t' && LocksForUpdate(txns[t], p)
    ensures var txns := After(s, es).txns; !LocksForUpdate(txns[t'], p) && !LocksShared(txns[t'], p)
  {
    hide Enabled, Step, Start, TxOk, RowsOk, MembersOk;
    InvStart(s);
    InvRun(s, es);
    assert Compatible(After(s, es).txns[t], After(s, es).txns[t']);
  }

  /** While a claimer's new membership is uncommitted, no other accept of that user gets past its own insert. */
  lemma JoiningSerialises(s: State, es: seq<Event>, t: nat, t': nat)
    requires Start(s) && Trace(s, es)
    requires var txns := After(s, es).txns;
             t in txns && t' in txns && t != t' && txns[t].Accepting? && txns[t'].Accepting?
             && txns[t].user == txns[t'].user && txns[t].joining
    ensures !Past(After(s, es).txns[t'].stage, Joined)
  {
    hide Enabled, Step, Start, RowsOk, MembersOk, IsActive, Claimable;
    InvStart(s);
    InvRun(s, es);
    assert Compatible(After(s, es).txns[t], After(s, es).txns[t']);
  }

  lemma ClaimStays(s: State, ev: Event, p: UserId)
    requires Inv(s) && Enabled(s, ev) && p in s.members && s.members[p].claimedBy.Some?
    ensures p in Step(s, ev).members && Step(s, ev).members[p].claimedBy == s.members[p].claimedBy
  {
    hide RowsOk, Compatible, InvitesOk, PostedExpense, SweptExpenses, CanPost, CanMint, CanEdit, CanAdd, CanRekey,
         LookedTx, SnappedTx, RekeyedTx, Both;
    match ev
    case Finish(t) => TargetIsNobody(s, t);
    case _ =>
  }

  /** `claimedBy` never changes once set. */
  lemma {:induction false} ClaimedForGood(s: State, es: seq<Event>, p: UserId)
    requires Inv(s) && Trace(s, es) && p in s.members && s.members[p].claimedBy.Some?
    ensures p in After(s, es).members && After(s, es).members[p].claimedBy == s.members[p].claimedBy
    decreases |es|
  {
    hide Inv, Enabled, Step;
    if es != [] {
      InvStep(s, es[0]);
      ClaimStays(s, es[0], p);
      ClaimedForGood(Step(s, es[0]), es[1..], p);
    }
  }

  // ---------- the log of claims ----------

  /** The log names each claimed placeholder once, with its claimer. */
  ghost predicate ClaimsOk(members: Members, claims: seq<(UserId, UserId)>) {
    && (forall k :: 0 <= k < |claims| ==> claims[k].0 in members && members[claims[k].0].claimedBy == Some(claims[k].1))
    && (forall j, k :: 0 <= j < k < |claims| ==> claims[j].0 != claims[k].0)
    && (forall u :: u in members && members[u].claimedBy.Some? ==> (u, members[u].claimedBy.value) in claims)
  }

  lemma ClaimsStep(s: State, ev: Event)
    requires Inv(s) && Enabled(s, ev) && ClaimsOk(s.members, s.claims)
    ensures ClaimsOk(Step(s, ev).members, Step(s, ev).claims)
  {
    hide RowsOk, Compatible, InvitesOk, PostedExpense, SweptExpenses, CanPost, CanMint, CanEdit, CanAdd, CanRekey,
         LookedTx, SnappedTx, RekeyedTx, Both, Trace, After;
    match ev
    case Finish(t) => FinishClaims(s, t);
    case _ =>
  }

  lemma FinishClaims(s: State, t: nat)
    requires Inv(s) && Enabled(s, Finish(t)) && ClaimsOk(s.members, s.claims)
    ensures ClaimsOk(FinishStep(s, t).members, FinishStep(s, t).claims)
  {
    hide RowsOk, Compatible, InvitesOk, SweptExpenses;
    TargetIsNobody(s, t);
  }

  // ---------- nothing left under a claimed placeholder ----------

  predicate Unclaimed(members: Members, u: UserId) {
    u in members && members[u].claimedBy.None?
  }

  /** No committed split belongs to a claimed placeholder. */
  ghost predicate SweptClean(s: State) {
    forall u :: Holding(s.expenses, u) != {} ==> Unclaimed(s.members, u)
  }

  lemma PostSwept(s: State, t: nat, e: nat, note: Note, input: SplitInput)
    requires Inv(s) && CanPost(s, t, e, note, input) && SweptClean(s)
    ensures SweptClean(s.(expenses := s.expenses[e := PostedExpense(s, t, e, note, input)], txns := s.txns - {t}))
  {
    hide RowsOk, Compatible, InvitesOk, PostedExpense, SplitOf, Valid, Holding, Total;
    var ex := PostedExpense(s, t, e, note, input);
    PostedHeadAt(s, t, e, note, input);
    SplitSumsToTotal(input);
    forall u | Holding(s.expenses[e := ex], u) != {}
      ensures Unclaimed(s.members, u)
    {
      HoldingPut(s.expenses, e, ex, u);
      assert u in ex.head.splits ==> u in s.txns[t].held;
    }
  }

  lemma FinishSwept(s: State, t: nat)
    requires Inv(s) && Enabled(s, Finish(t)) && SweptClean(s)
    ensures SweptClean(FinishStep(s, t))
  {
    hide RowsOk, Compatible, InvitesOk, SweptExpenses, Holding;
    var s', tx := FinishStep(s, t), s.txns[t];
    TargetIsNobody(s, t);
    forall u | Holding(s'.expenses, u) != {}
      ensures Unclaimed(s'.members, u)
    {
      if tx.target.Some? { SweptHolding(s.expenses, tx, u); }
    }
  }

  lemma SweptStep(s: State, ev: Event)
    requires Inv(s) && Enabled(s, ev) && SweptClean(s)
    ensures SweptClean(Step(s, ev))
  {
    hide Inv, FinishStep, PostedExpense, CanPost, CanMint, CanEdit, CanShare, CanJoin, CanAdd, CanRekey, CanAccept,
         LookedTx, SnappedTx, RekeyedTx, Both, Holding;
    match ev
    case Post(t, e, note, input) => PostSwept(s, t, e, note, input);
    case Finish(t) => FinishSwept(s, t);
    case _ =>
  }

  lemma CleanStart(s: State)
    requires Start(s)
    ensures Inv(s) && ClaimsOk(s.members, s.claims) && SweptClean(s)
  {
    InvStart(s);
  }

  /** All three, along every run. */
  lemma {:induction false} CleanRun(s: State, es: seq<Event>)
    requires Inv(s) && ClaimsOk(s.members, s.claims) && SweptClean(s) && Trace(s, es)
    ensures Inv(After(s, es)) && ClaimsOk(After(s, es).members, After(s, es).claims) && SweptClean(After(s, es))
    decreases |es|
  {
    hide Inv, Enabled, Step, ClaimsOk, SweptClean;
    if es != [] {
      InvStep(s, es[0]);
      ClaimsStep(s, es[0]);
      SweptStep(s, es[0]);
      CleanRun(Step(s, es[0]), es[1..]);
    }
  }

  /**
   Each placeholder is claimed at most once, by the user its row names, and no committed split
   is under a claimed placeholder, whatever is still open.
   */
  lemma ClaimedOnceAndSwept(s: State, es: seq<Event>)
    requires Start(s) && Trace(s, es)
    ensures var end := After(s, es);
            && (forall j, k :: 0 <= j < k < |end.claims| ==> end.claims[j].0 != end.claims[k].0)
            && (forall k :: 0 <= k < |end.claims| ==>
                  end.claims[k].0 in end.members && end.members[end.claims[k].0].claimedBy == Some(end.claims[k].1))
            && (forall e, u :: e in end.expenses && u in end.expenses[e].head.splits ==>
                  u in end.members && end.members[u].claimedBy.None?)
  {
    hide Enabled, Step, Inv, Start;
    CleanStart(s);
    CleanRun(s, es);
    var end := After(s, es);
    assert forall k :: 0 <= k < |end.claims| ==>
                  end.claims[k].0 in end.members && end.members[end.claims[k].0].claimedBy == Some(end.claims[k].1);
    assert (forall j, k :: 0 <= j < k < |end.claims| ==> end.claims[j].0 != end.claims[k].0);
    forall e, u | e in end.expenses && u in end.expenses[e].head.splits
      ensures u in end.members && end.members[u].claimedBy.None?
    {
      assert e in Holding(end.expenses, u);
      assert Unclaimed(end.members, u);
    }
  }
}
