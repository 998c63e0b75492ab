/**
 Accepts, claims and expense postings under the row locks, as a state machine over their steps
 (acceptInvite, claimHistory and createInvite in apps/api/src/houses/invites.service.ts,
 lockActiveMembers and resolveSplits in packages/ledger/src/posting.ts, createExpense and
 editExpense in apps/api/src/ledger/ledger.service.ts).

 Transactions interleave statement by statement.  A statement sees what is committed when it
 runs; what it writes is seen by others at the commit, and its rows stay locked until then.
 A blocked statement is one that is not enabled, and any transaction may abort at any time.  The
 UPDATE of a claim is two steps, because it chooses its rows before it waits for them; a row
 that the other statements wait for they choose again, or it is gone.
 */
module ClaimProtocol {
  import opened Text
  import opened Sums
  import opened Splits
  import opened Balances
  import opened Claim

  const MAX_USES := 10

  datatype Member = Member(placeholder: bool, active: bool, claimedBy: Option<UserId>)

  /** `open`: neither revoked nor expired. */
  datatype Invite = Invite(target: Option<UserId>, open: bool, uses: nat)

  /** What a request says about an expense besides its split. */
  datatype Note = Note(description: string, currency: string, category: Option<string>, isStaple: bool)

  /** A row of `expense_revisions`, written by an edit or by a claim that folds a split. */
  datatype Revision = Edited(before: Head) | Folded(before: Head)

  /**
   `written` and `past` are history: what the creation and each edit wrote, and every committed
   state, each with the number of edits before it.
   */
  datatype Expense = Expense(head: Head, revisions: seq<Revision>, written: seq<Head>, past: seq<(nat, Head)>)

  datatype Stage = Begun | Locked | Joined | Looked | Snapped | Adding | Added | Deleted | Rekeyed

  /**
   An open transaction.  A posting holds SHARE locks on `held` and, for an edit, the expense row
   and the snapshot of its previous state.  An accept holds its invite row, from stage Locked on
   the placeholder's membership row, and the split rows its statements wrote: `added`, `deleted`
   and `rekeyed` name their expenses.  `found`: the expenses in which the snapshot of the UPDATE
   saw a split of both; the UPDATE may then wait for their rows, and does not look again for
   others.  `newcomer`: it found no membership row of the user; `joining`: it has inserted (or
   reactivated) one.
   */
  datatype Tx =
    | Posting(held: set<UserId>, edit: Option<(nat, Head)>)
    | Accepting(invite: nat, user: UserId, target: Option<UserId>, newcomer: bool, joining: bool, stage: Stage,
                folds: map<nat, Head>, found: set<nat>, added: set<nat>, deleted: set<nat>, rekeyed: set<nat>)

  type Members = map<UserId, Member>
  type Invites = map<nat, Invite>
  type Expenses = map<nat, Expense>

  /** `accounts`: the users who can sign in.  `claims` is history: the claims in commit order. */
  datatype State = State(
    accounts: set<UserId>, members: Members, invites: Invites, expenses: Expenses,
    txns: map<nat, Tx>, claims: seq<(UserId, UserId)>)

  datatype Event =
    | AddPlaceholder(user: UserId)
    | Mint(invite: nat, target: Option<UserId>)
    | Close(invite: nat)
    | BeginPost(t: nat)
    | BeginEdit(t: nat, expense: nat, editor: UserId)
    | LockMember(t: nat, user: UserId)
    | Post(t: nat, expense: nat, note: Note, input: SplitInput)
    | BeginAccept(t: nat, invite: nat, user: UserId)
    | LockTarget(t: nat)
    | Join(t: nat)
    | Look(t: nat)
    | Snap(t: nat)
    | FindShares(t: nat)
    | AddShares(t: nat)
    | DeleteShares(t: nat)
    | Rekey(t: nat)
    | Finish(t: nat)
    | Abort(t: nat)

  // ---------- locks ----------

  predicate IsActive(members: Members, u: UserId) {
    u in members && members[u].active
  }

  predicate Claimable(members: Members, u: UserId) {
    u in members && members[u].placeholder && members[u].active && members[u].claimedBy.None?
  }

  /** FOR UPDATE on a placeholder's membership row. */
  predicate LocksForUpdate(tx: Tx, u: UserId) {
    tx.Accepting? && tx.target == Some(u) && tx.stage != Begun
  }

  /** FOR SHARE on a membership row. */
  predicate LocksShared(tx: Tx, u: UserId) {
    tx.Posting? && u in tx.held
  }

  predicate Edits(tx: Tx, e: nat) {
    tx.Posting? && tx.edit.Some? && tx.edit.value.0 == e
  }

  /** Split rows of the expense written and not yet committed. */
  predicate Writes(tx: Tx, e: nat) {
    tx.Accepting? && (e in tx.added || e in tx.deleted || e in tx.rekeyed)
  }

  function Holding(expenses: Expenses, u: UserId): set<nat> {
    set e | e in expenses && u in expenses[e].head.splits
  }

  /** The expenses in which both hold a split, as a statement's EXISTS and joins find them. */
  function Both(expenses: Expenses, tx: Tx): set<nat>
    requires tx.Accepting? && tx.target.Some?
  {
    Holding(expenses, tx.target.value) * Holding(expenses, tx.user)
  }

  // ---------- steps ----------

  predicate AcceptAt(s: State, t: nat, stage: Stage) {
    t in s.txns && s.txns[t].Accepting? && s.txns[t].stage == stage
  }

  predicate ClaimAt(s: State, t: nat, stage: Stage) {
    AcceptAt(s, t, stage) && s.txns[t].target.Some?
  }

  predicate CanLock(s: State, t: nat, u: UserId) {
    forall t' :: t' in s.txns && t' != t ==> !LocksForUpdate(s.txns[t'], u) && !LocksShared(s.txns[t'], u)
  }

  predicate CanMint(s: State, invite: nat, target: Option<UserId>) {
    invite !in s.invites
    && (target.Some? ==> Claimable(s.members, target.value)
                         && forall t :: t in s.txns ==>
                            !LocksForUpdate(s.txns[t], target.value) && !LocksShared(s.txns[t], target.value))
  }

  predicate CanEdit(s: State, t: nat, e: nat, editor: UserId) {
    t !in s.txns && e in s.expenses && IsActive(s.members, editor)
    && forall t' :: t' in s.txns ==> !Edits(s.txns[t'], e)
  }

  predicate CanShare(s: State, t: nat, u: UserId) {
    t in s.txns && s.txns[t].Posting? && IsActive(s.members, u)
    && forall t' :: t' in s.txns ==> !LocksForUpdate(s.txns[t'], u)
  }

  /**
   resolveSplits accepts: locked participants and payer, no placeholder payer, a valid split; an
   edit keeps the currency.
   */
  ghost predicate CanPost(s: State, t: nat, e: nat, note: Note, input: SplitInput) {
    t in s.txns && s.txns[t].Posting? && Valid(input)
    && SetOf(input.participants) + {input.paidBy} <= s.txns[t].held
    && input.paidBy in s.members && !s.members[input.paidBy].placeholder
    && match s.txns[t].edit
       case None => e !in s.expenses
       case Some(edit) =>
         && e == edit.0 && note.currency == edit.1.fields.currency
         && forall t' :: t' in s.txns ==> !Writes(s.txns[t'], e)
  }

  predicate CanAccept(s: State, t: nat, i: nat, user: UserId) {
    t !in s.txns && i in s.invites && user in s.accounts
    && (forall t' :: t' in s.txns && s.txns[t'].Accepting? ==> s.txns[t'].invite != i)
    && s.invites[i].open && s.invites[i].uses < MAX_USES
    && !(IsActive(s.members, user) && s.invites[i].target.None?)
  }

  predicate CanJoin(s: State, t: nat) {
    t in s.txns && s.txns[t].Accepting?
    && s.txns[t].stage == (if s.txns[t].target.None? then Begun else Locked)
    && (forall t' :: t' in s.txns && t' != t && s.txns[t'].Accepting? && s.txns[t'].joining ==>
       s.txns[t'].user != s.txns[t].user)
    && (s.txns[t].newcomer && IsActive(s.members, s.txns[t].user) ==> s.txns[t].target.Some?)
  }

  /** The rows the UPDATE writes once it has them: those it found, without any deleted meanwhile. */
  function FoundRows(s: State, t: nat): set<nat>
    requires ClaimAt(s, t, Adding)
  {
    s.txns[t].found * Both(s.expenses, s.txns[t])
  }

  predicate CanAdd(s: State, t: nat) {
    ClaimAt(s, t, Adding)
    && forall t' :: t' in s.txns && t' != t && s.txns[t'].Accepting? && s.txns[t'].user == s.txns[t].user ==>
         s.txns[t'].added !! FoundRows(s, t)
  }

  /** The key (expense, claimer) must be free, and not held by an open insert of another claim. */
  predicate CanRekey(s: State, t: nat) {
    ClaimAt(s, t, Deleted)
    && var rows := Holding(s.expenses, s.txns[t].target.value) - s.txns[t].deleted;
       && rows !! Holding(s.expenses, s.txns[t].user)
       && forall t' :: t' in s.txns && t' != t && s.txns[t'].Accepting? && s.txns[t'].user == s.txns[t].user ==>
            s.txns[t'].rekeyed !! rows
  }

  ghost predicate Enabled(s: State, ev: Event) {
    match ev
    case AddPlaceholder(u) => u !in s.members && u !in s.accounts
    case Mint(i, target) => CanMint(s, i, target)
    case Close(i) => i in s.invites
    case BeginPost(t) => t !in s.txns
    case BeginEdit(t, e, editor) => CanEdit(s, t, e, editor)
    case LockMember(t, u) => CanShare(s, t, u)
    case Post(t, e, note, input) => CanPost(s, t, e, note, input)
    case BeginAccept(t, i, user) => CanAccept(s, t, i, user)
    case LockTarget(t) => ClaimAt(s, t, Begun) && Claimable(s.members, s.txns[t].target.value)
      && CanLock(s, t, s.txns[t].target.value)
    case Join(t) => CanJoin(s, t)
    case Look(t) => ClaimAt(s, t, Joined)
    case Snap(t) => ClaimAt(s, t, Looked)
    case FindShares(t) => ClaimAt(s, t, Snapped)
    case AddShares(t) => CanAdd(s, t)
    case DeleteShares(t) => ClaimAt(s, t, Added)
    case Rekey(t) => CanRekey(s, t)
    case Finish(t) => t in s.txns && s.txns[t].Accepting? && s.txns[t].stage == if s.txns[t].target.None? then Joined
      else Rekeyed
    case Abort(t) => t in s.txns
  }

  function SetTx(s: State, t: nat, tx: Tx): State {
    s.(txns := s.txns[t := tx])
  }

  /** The first SELECT of claimHistory: the expense rows to fold. */
  function LookedTx(s: State, t: nat): Tx
    requires ClaimAt(s, t, Joined)
  {
    var rows := Both(s.expenses, s.txns[t]);
    s.txns[t].(stage := Looked, folds := map e | e in rows && e in s.expenses :: s.expenses[e].head)
  }

  /** The second SELECT, and the revisions made of the two. */
  function SnappedTx(s: State, t: nat): Tx
    requires ClaimAt(s, t, Looked)
  {
    var tx := s.txns[t];
    tx.(stage := Snapped,
        folds := map e | e in tx.folds :: if e in s.expenses then tx.folds[e].(splits := s.expenses[e].head.splits)
          else tx.folds[e])
  }

  function RekeyedTx(s: State, t: nat): Tx
    requires ClaimAt(s, t, Deleted)
  {
    var tx := s.txns[t];
    tx.(stage := Rekeyed, rekeyed := Holding(s.expenses, tx.target.value) - tx.deleted)
  }

  ghost function PostedHead(note: Note, input: SplitInput): Head
    requires Valid(input)
  {
    Head(Fields(note.description, input.totalCents, note.currency, input.paidBy, note.category, note.isStaple),
      SplitOf(input))
  }

  ghost function PostedExpense(s: State, t: nat, e: nat, note: Note, input: SplitInput): Expense
    requires CanPost(s, t, e, note, input)
  {
    var head := PostedHead(note, input);
    match s.txns[t].edit
    case None => Expense(head, [], [head], [(0, head)])
    case Some(edit) =>
      if e in s.expenses then
        var ex := s.expenses[e];
        Expense(head, ex.revisions + [Edited(edit.1)], ex.written + [head], ex.past + [(|ex.written|, head)])
      else Expense(head, [], [head], [(0, head)])
  }

  /** What a claim's three statements made of one expense's splits. */
  function Swept(tx: Tx, e: nat, splits: map<UserId, int>): map<UserId, int>
    requires tx.Accepting? && tx.target.Some?
  {
    var p, c := tx.target.value, tx.user;
    var added := if e in tx.added then splits[c := Get(splits, c) + Get(splits, p)] else splits;
    var deleted := if e in tx.deleted then added - {p} else added;
    if e in tx.rekeyed then (deleted - {p})[c := Get(deleted, p)] else deleted
  }

  function SweptExpense(tx: Tx, e: nat, ex: Expense): Expense
    requires tx.Accepting? && tx.target.Some?
  {
    var head := ex.head.(splits := Swept(tx, e, ex.head.splits));
    Expense(head,
            if e in tx.folds then ex.revisions + [Folded(tx.folds[e])] else ex.revisions,
            ex.written,
            if head == ex.head then ex.past else ex.past + [(if |ex.written| > 0 then |ex.written| - 1 else 0, head)])
  }

  function SweptExpenses(tx: Tx, expenses: Expenses): Expenses
    requires tx.Accepting? && tx.target.Some?
  {
    map e | e in expenses :: SweptExpense(tx, e, expenses[e])
  }

  function MembersAfter(members: Members, tx: Tx): Members
    requires tx.Accepting?
  {
    var joined := if tx.joining then members[tx.user := Member(false, true, None)] else members;
    if tx.target.Some? then joined[tx.target.value := Member(true, false, Some(tx.user))] else joined
  }

  function FinishStep(s: State, t: nat): State
    requires t in s.txns && s.txns[t].Accepting?
  {
    var tx := s.txns[t];
    s.(members := MembersAfter(s.members, tx),
       invites := if tx.invite !in s.invites then s.invites
                  else s.invites[tx.invite := s.invites[tx.invite].(uses := s.invites[tx.invite].uses + 1)],
       expenses := if tx.target.Some? then SweptExpenses(tx, s.expenses) else s.expenses,
       txns := s.txns - {t},
       claims := if tx.target.Some? then s.claims + [(tx.target.value, tx.user)] else s.claims)
  }

  ghost function Step(s: State, ev: Event): State
    requires Enabled(s, ev)
  {
    match ev
    case AddPlaceholder(u) => s.(members := s.members[u := Member(true, true, None)])
    case Mint(i, target) => s.(invites := s.invites[i := Invite(target, true, 0)])
    case Close(i) => s.(invites := s.invites[i := s.invites[i].(open := false)])
    case BeginPost(t) => SetTx(s, t, Posting({}, None))
    case BeginEdit(t, e, editor) => SetTx(s, t, Posting({}, Some((e, s.expenses[e].head))))
    case LockMember(t, u) => SetTx(s, t, s.txns[t].(held := s.txns[t].held + {u}))
    case Post(t, e, note, input) => s.(expenses := s.expenses[e := PostedExpense(s, t, e, note, input)],
      txns := s.txns - {t})
    case BeginAccept(t, i, user) =>
      SetTx(s, t, Accepting(i, user, s.invites[i].target, user !in s.members, false, Begun, map[], {}, {}, {}, {}))
    case LockTarget(t) => SetTx(s, t, s.txns[t].(stage := Locked))
    case Join(t) => SetTx(s, t, s.txns[t].(stage := Joined, joining := !IsActive(s.members, s.txns[t].user)))
    case Look(t) => SetTx(s, t, LookedTx(s, t))
    case Snap(t) => SetTx(s, t, SnappedTx(s, t))
    case FindShares(t) => SetTx(s, t, s.txns[t].(stage := Adding, found := Both(s.expenses, s.txns[t])))
    case AddShares(t) => SetTx(s, t, s.txns[t].(stage := Added, added := FoundRows(s, t)))
    case DeleteShares(t) => SetTx(s, t, s.txns[t].(stage := Deleted, deleted := Both(s.expenses, s.txns[t])))
    case Rekey(t) => SetTx(s, t, RekeyedTx(s, t))
    case Finish(t) => FinishStep(s, t)
    case Abort(t) => s.(txns := s.txns - {t})
  }

  /** A house before its first placeholder, invite and expense; members may have left it. */
  predicate Start(s: State) {
    s.invites == map[] && s.expenses == map[] && s.txns == map[] && s.claims == []
    && forall u :: u in s.members ==> u in s.accounts && !s.members[u].placeholder && s.members[u].claimedBy.None?
  }

  ghost predicate Trace(s: State, es: seq<Event>)
    decreases |es|
  {
    es == [] || (Enabled(s, es[0]) && Trace(Step(s, es[0]), es[1..]))
  }

  ghost function After(s: State, es: seq<Event>): State
    requires Trace(s, es)
    decreases |es|
  {
    if es == [] then s else After(Step(s, es[0]), es[1..])
  }

  // ---------- what the locks keep, in every interleaving ----------

  predicate Past(stage: Stage, mark: Stage) {
    Rank(stage) >= Rank(mark)
  }

  function Rank(stage: Stage): nat {
    match stage
    case Begun => 0
    case Locked => 1
    case Joined => 2
    case Looked => 3
    case Snapped => 4
    case Adding => 5
    case Added => 6
    case Deleted => 7
    case Rekeyed => 8
  }

  predicate MemberOk(accounts: set<UserId>, u: UserId, m: Member) {
    (m.placeholder <==> u !in accounts)
    && (m.claimedBy.Some? ==> m.placeholder && !m.active && m.claimedBy.value in accounts)
  }

  predicate MembersOk(accounts: set<UserId>, members: Members) {
    forall u :: u in members ==> MemberOk(accounts, u, members[u])
  }

  predicate InvitesOk(invites: Invites) {
    forall i :: i in invites ==> invites[i].uses <= MAX_USES
  }

  predicate TxOk(accounts: set<UserId>, members: Members, invites: Invites, tx: Tx) {
    match tx
    case Posting(held, _) => forall u :: u in held ==> IsActive(members, u)
    case Accepting(i, user, target, _, joining, stage, _, _, _, _, _) =>
      && user in accounts && i in invites && invites[i].uses < MAX_USES && invites[i].target == target
      && (target.Some? && stage != Begun ==> Claimable(members, target.value))
      && (joining ==> !IsActive(members, user))
      && (Past(stage, Joined) ==> joining || IsActive(members, user))
  }

  /** Two open transactions never hold conflicting locks. */
  predicate Compatible(a: Tx, b: Tx) {
    && (a.Accepting? && b.Accepting? ==>
          && a.invite != b.invite
          && !(a.joining && b.joining && a.user == b.user)
          && !(a.target.Some? && a.target == b.target && a.stage != Begun && b.stage != Begun)
          && (a.user == b.user ==> a.added !! b.added && a.rekeyed !! b.rekeyed))
    && (a.Accepting? && a.target.Some? && a.stage != Begun && b.Posting? ==> a.target.value !in b.held)
    && (b.Accepting? && b.target.Some? && b.stage != Begun && a.Posting? ==> b.target.value !in a.held)
    && (a.Posting? && b.Posting? && a.edit.Some? && b.edit.Some? ==> a.edit.value.0 != b.edit.value.0)
  }

  /** What a claim's statements have found is still so: its rows are locked. */
  predicate RowsOk(expenses: Expenses, tx: Tx) {
    tx.Accepting? ==>
      && (!Past(tx.stage, Adding) ==> tx.found == {})
      && (!Past(tx.stage, Added) ==> tx.added == {}) && (!Past(tx.stage, Deleted) ==> tx.deleted == {})
      && (!Past(tx.stage, Rekeyed) ==> tx.rekeyed == {})
      && (tx.target.None? ==> tx.added == tx.deleted == tx.rekeyed == {})
      && (tx.target.Some? ==> ClaimRowsOk(expenses, tx))
  }

  predicate ClaimRowsOk(expenses: Expenses, tx: Tx)
    requires tx.Accepting? && tx.target.Some?
  {
    var theirs, mine := Holding(expenses, tx.target.value), Holding(expenses, tx.user);
    && tx.found * theirs <= mine && tx.added <= theirs * mine && tx.deleted <= theirs
    && tx.rekeyed <= theirs - mine - tx.deleted
    && (Past(tx.stage, Deleted) ==> tx.added <= tx.deleted)
    && (Past(tx.stage, Rekeyed) ==> theirs <= tx.deleted + tx.rekeyed)
  }

  ghost predicate Inv(s: State) {
    && MembersOk(s.accounts, s.members) && InvitesOk(s.invites)
    && (forall t :: t in s.txns ==> TxOk(s.accounts, s.members, s.invites, s.txns[t]) && RowsOk(s.expenses, s.txns[t]))
    && (forall t, t' :: t in s.txns && t' in s.txns && t != t' ==> Compatible(s.txns[t], s.txns[t']))
  }
}
