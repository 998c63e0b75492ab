/**
 The states of ClaimProtocol read off the events that led there.  How often an invite was used,
 which claims committed, who belongs to the house and what was posted are defined on the list of
 events alone, no state looked at; every run's state agrees with them.
 */
module ClaimEvents {
  import opened Text
  import opened Sums
  import opened Splits
  import opened Balances
  import opened Claim
  import opened ClaimProtocol
  import opened ClaimLocks
  import opened ClaimLedger

  // ---------- what the events say ----------

  /** The invite and the user of the last accept begun under the transaction id. */
  function Opened(es: seq<Event>, t: nat): Option<(nat, UserId)> {
    if es == [] then None
    else
      match es[|es| - 1]
      case BeginAccept(t', i, user) => if t' == t then Some((i, user)) else Opened(es[..|es| - 1], t)
      case _ => Opened(es[..|es| - 1], t)
  }

  /** The accepts of the invite that committed. */
  function Commits(es: seq<Event>, i: nat): nat {
    if es == [] then 0
    else
      var before := es[..|es| - 1];
      Commits(before, i) +
      match es[|es| - 1]
      case Finish(t) => if Opened(before, t).Some? && Opened(before, t).value.0 == i then 1 else 0
      case _ => 0
  }

  /** The placeholder an invite was minted for. */
  function TargetOf(es: seq<Event>, i: nat): Option<UserId> {
    if es == [] then None
    else
      match es[|es| - 1]
      case Mint(i', target) => if i' == i then target else TargetOf(es[..|es| - 1], i)
      case _ => TargetOf(es[..|es| - 1], i)
  }

  /** The claims that committed, in order. */
  function Claimed(es: seq<Event>): seq<(UserId, UserId)> {
    if es == [] then []
    else
      var before := es[..|es| - 1];
      Claimed(before) +
      match es[|es| - 1]
      case Finish(t) =>
        if Opened(before, t).Some? && TargetOf(before, Opened(before, t).value.0).Some? then
          [(TargetOf(before, Opened(before, t).value.0).value, Opened(before, t).value.1)]
        else []
      case _ => []
  }

  /** An accept of the user committed. */
  predicate HasJoined(es: seq<Event>, u: UserId) {
    if es == [] then false
    else
      var before := es[..|es| - 1];
      HasJoined(before, u) ||
      match es[|es| - 1]
      case Finish(t) => Opened(before, t).Some? && Opened(before, t).value.1 == u
      case _ => false
  }

  /** Everything posted to the expense: the columns as asked, the splits of the domain function. */
  ghost function Posts(es: seq<Event>, e: nat): seq<Head> {
    if es == [] then []
    else
      Posts(es[..|es| - 1], e) +
      match es[|es| - 1]
      case Post(_, e', note, input) =>
        if e' == e && Valid(input) then
          [Head(Fields(note.description, input.totalCents, note.currency, input.paidBy, note.category, note.isStaple),
                SplitOf(input))]
        else []
      case _ => []
  }

  lemma Snoc(es: seq<Event>, ev: Event)
    ensures (es + [ev])[..|es + [ev]| - 1] == es && (es + [ev])[|es + [ev]| - 1] == ev
  {
  }

  // ---------- a run without its last event ----------

  lemma {:induction false} TraceInit(s: State, es: seq<Event>)
    requires Trace(s, es) && es != []
    ensures var before, ev := es[..|es| - 1], es[|es| - 1];
            Trace(s, before) && Enabled(After(s, before), ev) && After(s, es) == Step(After(s, before), ev)
    decreases |es|
  {
    hide Enabled, Step;
    if |es| == 1 {
      assert es[..0] == [] && es[1..] == [];
      assert After(s, es) == After(Step(s, es[0]), []);
    } else {
      TraceInit(Step(s, es[0]), es[1..]);
      assert es[1..][..|es[1..]| - 1] == es[..|es| - 1][1..];
    }
  }

  // ---------- uses ----------

  /** An open accept was open before, or the event began it. */
  lemma OpenedTx(s: State, ev: Event, t: nat)
    requires Enabled(s, ev) && t in Step(s, ev).txns && Step(s, ev).txns[t].Accepting?
    ensures var tx := Step(s, ev).txns[t];
            if ev.BeginAccept? && ev.t == t then tx.invite == ev.invite && tx.user == ev.user
            else t in s.txns && s.txns[t].Accepting? && tx.invite == s.txns[t].invite && tx.user == s.txns[t].user
  {
    hide CanMint, PostedExpense, Both, IsActive, Claimable, CanLock, SweptExpenses, MembersAfter, Valid, Writes,
         Holding, FoundRows, CanAccept, CanEdit, CanPost;
  }

  lemma OpenedSnoc(es: seq<Event>, ev: Event, t: nat)
    ensures Opened(es + [ev], t) == if ev.BeginAccept? && ev.t == t then Some((ev.invite, ev.user)) else Opened(es, t)
  {
    Snoc(es, ev);
  }

  /** Every open accept is the one its events opened. */
  ghost predicate OpenOk(es: seq<Event>, s: State) {
    forall t :: t in s.txns && s.txns[t].Accepting? ==> Opened(es, t) == Some((s.txns[t].invite, s.txns[t].user))
  }

  lemma OpenStep(es: seq<Event>, s: State, ev: Event)
    requires Enabled(s, ev) && OpenOk(es, s)
    ensures OpenOk(es + [ev], Step(s, ev))
  {
    hide Enabled, Step, Opened;
    forall t | t in Step(s, ev).txns && Step(s, ev).txns[t].Accepting?
      ensures Opened(es + [ev], t) == Some((Step(s, ev).txns[t].invite, Step(s, ev).txns[t].user))
    {
      OpenedTx(s, ev, t);
      OpenedSnoc(es, ev, t);
    }
  }

  /** Each invite is as it was minted, closed if an event closed it, and used by the commits. */
  ghost predicate InviteIs(es: seq<Event>, i: nat, invite: Invite) {
    invite == Invite(TargetOf(es, i), Close(i) !in es, Commits(es, i)) && Mint(i, invite.target) in es
  }

  ghost predicate InvitesAre(es: seq<Event>, invites: Invites) {
    && (forall i :: i in invites ==> InviteIs(es, i, invites[i]))
    && (forall i :: i !in invites ==> Commits(es, i) == 0)
    && (forall i, target :: Mint(i, target) in es ==> i in invites)
    && (forall i :: Close(i) in es ==> i in invites)
  }

  lemma FinishInvite(s: State, t: nat)
    requires Inv(s) && Enabled(s, Finish(t))
    ensures t in s.txns && s.txns[t].Accepting? && s.txns[t].invite in s.invites
  {
    TargetIsNobody(s, t);
  }

  lemma FinishUses(s: State, t: nat)
    requires t in s.txns && s.txns[t].Accepting? && s.txns[t].invite in s.invites
    ensures FinishStep(s, t).invites
         == s.invites[s.txns[t].invite :=
              s.invites[s.txns[t].invite].(uses := s.invites[s.txns[t].invite].uses + 1)]
  {
    hide SweptExpenses, MembersAfter;
  }

  /** What an event does to the invites. */
  lemma InvitesStep(s: State, ev: Event)
    requires Inv(s) && Enabled(s, ev)
    ensures Step(s, ev).invites
         == match ev
            case Mint(i, target) => s.invites[i := Invite(target, true, 0)]
            case Close(i) => s.invites[i := s.invites[i].(open := false)]
            case Finish(t) => s.invites[s.txns[t].invite :=
                s.invites[s.txns[t].invite].(uses := s.invites[s.txns[t].invite].uses + 1)]
            case _ => s.invites
  {
    hide Inv, CanMint, CanPost, CanEdit, CanShare, CanAccept, CanJoin, CanAdd, CanRekey, CanLock, Claimable, IsActive,
         PostedExpense, FinishStep, LookedTx, SnappedTx, RekeyedTx, FoundRows, Both, Holding;
    match ev
    case Finish(t) =>
      FinishInvite(s, t);
      FinishUses(s, t);
    case _ =>
  }

  lemma CommitsSnoc(es: seq<Event>, ev: Event, i: nat)
    ensures Commits(es + [ev], i)
         == Commits(es, i) + if ev.Finish? && Opened(es, ev.t).Some? && Opened(es, ev.t).value.0 == i then 1 else 0
    ensures TargetOf(es + [ev], i) == if ev.Mint? && ev.invite == i then ev.target else TargetOf(es, i)
  {
    hide Opened;
    Snoc(es, ev);
  }

  lemma InvitesAreStep(es: seq<Event>, s: State, ev: Event)
    requires Inv(s) && Enabled(s, ev) && OpenOk(es, s) && InvitesAre(es, s.invites)
    ensures InvitesAre(es + [ev], Step(s, ev).invites)
  {
    hide Inv, Step, Opened, Commits, TargetOf;
    InvitesStep(s, ev);
    assert ev.Mint? ==> ev.invite !in s.invites;
    if ev.Finish? { FinishInvite(s, ev.t); }
    forall i
      ensures if i in Step(s, ev).invites then InviteIs(es + [ev], i, Step(s, ev).invites[i])
              else Commits(es + [ev], i) == 0
    {
      CommitsSnoc(es, ev, i);
    }
  }

  lemma {:induction false} InvitesRun(s: State, es: seq<Event>)
    requires Start(s) && Trace(s, es)
    ensures Inv(After(s, es)) && OpenOk(es, After(s, es)) && InvitesAre(es, After(s, es).invites)
    decreases |es|
  {
    hide Inv, Enabled, Step, Trace;
    if es == [] {
      InvStart(s);
    } else {
      var before, ev := es[..|es| - 1], es[|es| - 1];
      TraceInit(s, es);
      InvitesRun(s, before);
      InvStep(After(s, before), ev);
      OpenStep(before, After(s, before), ev);
      InvitesAreStep(before, After(s, before), ev);
      assert before + [ev] == es;
    }
  }

  /**
   In every run an invite has been used once by each accept on it that committed, and by at most
   ten; it names the placeholder it was minted for and is open until an event closes it.
   */
  lemma UsesAreCommits(s: State, es: seq<Event>, i: nat)
    requires Start(s) && Trace(s, es)
    ensures Commits(es, i) <= 10
    ensures i in After(s, es).invites <==> exists target :: Mint(i, target) in es
    ensures i in After(s, es).invites ==>
              After(s, es).invites[i] == Invite(TargetOf(es, i), Close(i) !in es, Commits(es, i))
  {
    hide Inv, Enabled, Step, Start, Opened, Commits, TargetOf;
    InvitesRun(s, es);
    if i in After(s, es).invites {
      assert InviteIs(es, i, After(s, es).invites[i]);
      UsesWithinMax(s, es, i);
    }
  }

  /** Another accept on the invite is open. */
  ghost predicate InUse(es: seq<Event>, s: State, i: nat) {
    exists t :: t in s.txns && s.txns[t].Accepting? && Opened(es, t).Some? && Opened(es, t).value.0 == i
  }

  /**
   An accept begins if and only if the user has an account, the invite was minted, nothing closed
   it, fewer than ten accepts on it committed and none is open; a member needs one that claims.
   */
  lemma AcceptBeginsIff(s: State, es: seq<Event>, t: nat, i: nat, user: UserId)
    requires Start(s) && Trace(s, es) && t !in After(s, es).txns
    ensures Enabled(After(s, es), BeginAccept(t, i, user)) <==>
            && user in s.accounts && (exists target :: Mint(i, target) in es) && Close(i) !in es
            && Commits(es, i) < 10 && !InUse(es, After(s, es), i)
            && (TargetOf(es, i).None? ==> !IsActive(After(s, es).members, user))
  {
    hide Inv, Step, Start, Opened, Commits, TargetOf, After, Trace, IsActive;
    InvitesRun(s, es);
    SameAccounts(s, es);
    assert i in After(s, es).invites ==> InviteIs(es, i, After(s, es).invites[i]);
  }

  // ---------- members ----------

  /** A placeholder is active until claimed; a person is active from the start or by an accept. */
  ghost predicate MemberIs(es: seq<Event>, before: Members, u: UserId, m: Member) {
    if m.placeholder then AddPlaceholder(u) in es && m.active == m.claimedBy.None?
    else AddPlaceholder(u) !in es && m.claimedBy.None? && m.active == (IsActive(before, u) || HasJoined(es, u))
  }

  ghost predicate MembersAre(es: seq<Event>, before: Members, members: Members) {
    && (forall u :: u in members ==> MemberIs(es, before, u, members[u]))
    && (forall u :: u in members <==> u in before || AddPlaceholder(u) in es || HasJoined(es, u))
  }

  lemma JoinedSnoc(es: seq<Event>, ev: Event, u: UserId)
    ensures HasJoined(es + [ev], u)
       <==> HasJoined(es, u) || (ev.Finish? && Opened(es, ev.t).Some? && Opened(es, ev.t).value.1 == u)
  {
    hide Opened;
    Snoc(es, ev);
  }

  /** What an event does to the members. */
  lemma MembersStep(s: State, ev: Event)
    requires Inv(s) && Enabled(s, ev)
    ensures Step(s, ev).members
         == match ev
            case AddPlaceholder(u) => s.members[u := Member(true, true, None)]
            case Finish(t) => MembersAfter(s.members, s.txns[t])
            case _ => s.members
    ensures ev.AddPlaceholder? ==> ev.user !in s.members && ev.user !in s.accounts
  {
    hide Inv, CanPost, CanEdit, CanShare, CanAccept, CanJoin, CanAdd, CanRekey, CanLock, Claimable, PostedExpense,
         SweptExpenses, MembersAfter, LookedTx, SnappedTx, RekeyedTx, FoundRows, Both, CanMint;
  }

  /** A committed accept leaves its user an active member and its placeholder claimed. */
  lemma FinishedMember(s: State, t: nat, u: UserId)
    requires Inv(s) && Enabled(s, Finish(t))
    ensures s.txns[t].user in s.accounts
    ensures var after, tx := MembersAfter(s.members, s.txns[t]), s.txns[t];
            if tx.target == Some(u) then
              u in s.members && s.members[u] == Member(true, true, None) && u in after
              && after[u] == Member(true, false, Some(tx.user)) && u != tx.user
            else if u == tx.user then
              u in after && after[u] == Member(false, true, None) && (u in s.members ==> !s.members[u].placeholder)
            else (u in after <==> u in s.members) && (u in after ==> after[u] == s.members[u])
  {
    hide RowsOk, Compatible, InvitesOk;
    TargetIsNobody(s, t);
    assert TxOk(s.accounts, s.members, s.invites, s.txns[t]);
    assert s.txns[t].user in s.members ==> MemberOk(s.accounts, s.txns[t].user, s.members[s.txns[t].user]);
  }

  lemma MembersAreStep(es: seq<Event>, before: Members, s: State, ev: Event)
    requires Inv(s) && Enabled(s, ev) && OpenOk(es, s) && MembersAre(es, before, s.members)
    requires forall u :: u in before ==> u in s.accounts
    ensures MembersAre(es + [ev], before, Step(s, ev).members)
  {
    hide Inv, Step, Opened, HasJoined, MembersAfter, IsActive;
    MembersStep(s, ev);
    if ev.Finish? { FinishInvite(s, ev.t); }
    forall u
      ensures u in Step(s, ev).members <==> u in before || AddPlaceholder(u) in es + [ev] || HasJoined(es + [ev], u)
      ensures u in Step(s, ev).members ==> MemberIs(es + [ev], before, u, Step(s, ev).members[u])
    {
      JoinedSnoc(es, ev, u);
      if ev.Finish? { FinishedMember(s, ev.t, u); }
    }
  }

  // ---------- plain accepts of a newcomer ----------

  /** The events before the last accept begun under the transaction id. */
  function BegunAfter(es: seq<Event>, t: nat): seq<Event> {
    if es == [] then []
    else
      match es[|es| - 1]
      case BeginAccept(t', _, _) => if t' == t then es[..|es| - 1] else BegunAfter(es[..|es| - 1], t)
      case _ => BegunAfter(es[..|es| - 1], t)
  }

  lemma BegunSnoc(es: seq<Event>, ev: Event, t: nat)
    ensures BegunAfter(es + [ev], t) == if ev.BeginAccept? && ev.t == t then es else BegunAfter(es, t)
  {
    Snoc(es, ev);
  }

  /** The user had no membership row when the accept began. */
  predicate Stranger(es: seq<Event>, before: Members, t: nat, u: UserId) {
    u !in before && !HasJoined(BegunAfter(es, t), u)
  }

  /** An open accept without a placeholder knows whether its user is new, and has inserted a new one itself. */
  ghost predicate PlainOk(es: seq<Event>, before: Members, s: State) {
    forall t :: t in s.txns && s.txns[t].Accepting? ==>
      && (s.txns[t].newcomer <==> Stranger(es, before, t, s.txns[t].user))
      && (s.txns[t].target.None? && s.txns[t].newcomer && Past(s.txns[t].stage, Joined) ==> s.txns[t].joining)
  }

  /** What a step leaves of an open accept. */
  lemma AcceptTx(s: State, ev: Event, t: nat)
    requires Enabled(s, ev) && t in Step(s, ev).txns && Step(s, ev).txns[t].Accepting?
    ensures var tx := Step(s, ev).txns[t];
            if ev.BeginAccept? && ev.t == t then
              tx.user == ev.user && tx.newcomer == (ev.user !in s.members) && tx.stage == Begun && ev.user in s.accounts
            else
              && t in s.txns && s.txns[t].Accepting? && tx.newcomer == s.txns[t].newcomer
              && tx.user == s.txns[t].user && tx.target == s.txns[t].target
              && (tx.target.None? ==>
                    if ev == Join(t) then tx.newcomer ==> tx.joining
                    else tx.joining == s.txns[t].joining && tx.stage == s.txns[t].stage)
  {
    hide CanMint, PostedExpense, Both, Claimable, CanLock, SweptExpenses, MembersAfter, Valid, Writes, Holding,
         FoundRows, CanEdit, CanPost;
  }

  lemma PlainStep(es: seq<Event>, before: Members, s: State, ev: Event)
    requires Inv(s) && Enabled(s, ev) && MembersAre(es, before, s.members) && PlainOk(es, before, s)
    ensures PlainOk(es + [ev], before, Step(s, ev))
  {
    hide Enabled, Step, HasJoined, BegunAfter, RowsOk, Compatible, InvitesOk, TxOk;
    forall t | t in Step(s, ev).txns && Step(s, ev).txns[t].Accepting?
      ensures var tx := Step(s, ev).txns[t];
              && (tx.newcomer <==> Stranger(es + [ev], before, t, tx.user))
              && (tx.target.None? && tx.newcomer && Past(tx.stage, Joined) ==> tx.joining)
    {
      AcceptTx(s, ev, t);
      BegunSnoc(es, ev, t);
    }
  }

  // ---------- claims ----------

  lemma ClaimedSnoc(es: seq<Event>, ev: Event)
    ensures Claimed(es + [ev])
         == Claimed(es) +
            if ev.Finish? && Opened(es, ev.t).Some? && TargetOf(es, Opened(es, ev.t).value.0).Some? then
              [(TargetOf(es, Opened(es, ev.t).value.0).value, Opened(es, ev.t).value.1)]
            else []
  {
    hide Opened, TargetOf;
    Snoc(es, ev);
  }

  /** What an event does to the log of claims. */
  lemma ClaimsAreStep(es: seq<Event>, s: State, ev: Event)
    requires Inv(s) && Enabled(s, ev) && OpenOk(es, s) && InvitesAre(es, s.invites) && s.claims == Claimed(es)
    ensures Step(s, ev).claims == Claimed(es + [ev])
  {
    hide RowsOk, Compatible, InvitesOk, MembersOk, CanPost, CanEdit, CanShare, CanAccept, CanJoin, CanAdd, CanRekey,
         CanLock, Claimable, PostedExpense, SweptExpenses, MembersAfter, LookedTx, SnappedTx, RekeyedTx, FoundRows,
         Both, CanMint, Opened, TargetOf, Claimed, Commits;
    ClaimedSnoc(es, ev);
    match ev
    case Finish(t) =>
      FinishInvite(s, t);
      assert TxOk(s.accounts, s.members, s.invites, s.txns[t]);
      assert InviteIs(es, s.txns[t].invite, s.invites[s.txns[t].invite]);
    case _ =>
  }

  lemma {:induction false} MembersRun(s: State, es: seq<Event>)
    requires Start(s) && Trace(s, es)
    ensures var end := After(s, es);
            && Inv(end) && OpenOk(es, end) && InvitesAre(es, end.invites) && MembersAre(es, s.members, end.members)
            && end.claims == Claimed(es) && end.accounts == s.accounts && PlainOk(es, s.members, end)
    decreases |es|
  {
    hide Inv, Enabled, Step, Trace, MembersAre, InvitesAre, OpenOk, PlainOk;
    SameAccounts(s, es);
    if es == [] {
      StartMembers(s);
    } else {
      var before, ev := es[..|es| - 1], es[|es| - 1];
      TraceInit(s, es);
      MembersRun(s, before);
      InvitesRun(s, es);
      MembersAreStep(before, s.members, After(s, before), ev);
      PlainStep(before, s.members, After(s, before), ev);
      ClaimsAreStep(before, After(s, before), ev);
      assert before + [ev] == es;
    }
  }

  lemma StartMembers(s: State)
    requires Start(s)
    ensures Inv(s) && OpenOk([], s) && InvitesAre([], s.invites) && MembersAre([], s.members, s.members)
    ensures PlainOk([], s.members, s)
  {
    InvStart(s);
  }

  /**
   In every run the members are who the events made them: a placeholder is one that was added, and
   is active until the claim that names its claimer; a person is active who was from the start or
   has an accept committed.
   */
  lemma MembersAreTheirEvents(s: State, es: seq<Event>, u: UserId)
    requires Start(s) && Trace(s, es)
    ensures var members := After(s, es).members;
            && (u in members <==> u in s.members || AddPlaceholder(u) in es || HasJoined(es, u))
            && (u in members ==> (members[u].placeholder <==> AddPlaceholder(u) in es))
            && (AddPlaceholder(u) in es ==> (IsActive(members, u) <==> forall c :: (u, c) !in Claimed(es)))
            && (u in s.accounts ==> (IsActive(members, u) <==> IsActive(s.members, u) || HasJoined(es, u)))
            && (forall c :: u in members && members[u].claimedBy == Some(c) <==> (u, c) in Claimed(es))
    ensures After(s, es).claims == Claimed(es)
  {
    hide Enabled, Step, Start, HasJoined, Opened, Claimed, RowsOk, Compatible, TxOk, InvitesOk;
    MembersRun(s, es);
    CleanStart(s);
    CleanRun(s, es);
  }

  /**
   However links are accepted at once, an accept that claims nothing and was begun by someone
   without a membership row commits only as the first of that user's to commit: the others find
   the row there and count no use.
   */
  lemma NewcomerCountsOnce(s: State, es: seq<Event>, t: nat)
    requires Start(s) && Trace(s, es) && Enabled(After(s, es), Finish(t))
    ensures Opened(es, t).Some?
    ensures var (i, user) := Opened(es, t).value;
            TargetOf(es, i).None? && Stranger(es, s.members, t, user) ==> !HasJoined(es, user)
  {
    hide Step, Start, Opened, TargetOf, Commits, HasJoined, BegunAfter, RowsOk, Compatible, MembersOk, InvitesOk,
         IsActive, Trace, After;
    MembersRun(s, es);
    OpenedTarget(es, After(s, es), t);
    MembersAreTheirEvents(s, es, Opened(es, t).value.1);
    assert TxOk(s.accounts, After(s, es).members, After(s, es).invites, After(s, es).txns[t]);
  }

  // ---------- expenses ----------

  lemma PostsSnoc(es: seq<Event>, ev: Event, e: nat)
    ensures ev.Post? && ev.expense == e && Valid(ev.input) ==>
              Posts(es + [ev], e) == Posts(es, e) + [PostedHead(ev.note, ev.input)]
    ensures !(ev.Post? && ev.expense == e && Valid(ev.input)) ==> Posts(es + [ev], e) == Posts(es, e)
  {
    hide Valid, SplitOf;
    Snoc(es, ev);
  }

  /** The expense was written by its posts, the last of which gives its columns, all in one currency. */
  ghost predicate ExpenseIs(posts: seq<Head>, ex: Expense) {
    && posts != [] && ex.written == posts && ex.head.fields == posts[|posts| - 1].fields
    && forall j :: 0 <= j < |posts| ==> posts[j].fields.currency == ex.head.fields.currency
  }

  ghost predicate ExpensesAre(es: seq<Event>, expenses: Expenses) {
    && (forall e :: e in expenses ==> ExpenseIs(Posts(es, e), expenses[e]))
    && (forall e :: e !in expenses ==> Posts(es, e) == [])
  }

  /** The columns an open edit has read are still the expense's. */
  predicate Fresh(expenses: Expenses, tx: Tx) {
    tx.Posting? && tx.edit.Some? ==>
      tx.edit.value.0 in expenses && tx.edit.value.1.fields == expenses[tx.edit.value.0].head.fields
  }

  ghost predicate EditsFresh(s: State) {
    forall t :: t in s.txns ==> Fresh(s.expenses, s.txns[t])
  }

  /** What an event does to an expense besides moving splits. */
  lemma ExpenseStep(s: State, ev: Event, e: nat)
    requires Enabled(s, ev) && !ev.Post?
    ensures e in Step(s, ev).expenses <==> e in s.expenses
    ensures e in s.expenses ==>
              && Step(s, ev).expenses[e].written == s.expenses[e].written
              && Step(s, ev).expenses[e].head.fields == s.expenses[e].head.fields
  {
    hide CanMint, CanEdit, CanAccept, CanJoin, CanAdd, CanRekey, CanLock, CanShare, Claimable, IsActive, LookedTx,
         SnappedTx, RekeyedTx, Both, Holding, Swept, MembersAfter, CanPost;
  }

  /** What a posting does to the expenses. */
  lemma PostStep(s: State, t: nat, e: nat, note: Note, input: SplitInput)
    requires Enabled(s, Post(t, e, note, input)) && EditsFresh(s)
    ensures Valid(input) && t in s.txns && s.txns[t].Posting?
    ensures var s' := Step(s, Post(t, e, note, input));
            && s' == s.(expenses := s'.expenses, txns := s.txns - {t})
            && s'.expenses == s.expenses[e := s'.expenses[e]] && s'.expenses[e].head == PostedHead(note, input)
            && s'.expenses[e].written
            == (if e in s.expenses then s.expenses[e].written else []) + [PostedHead(note, input)]
    ensures e in s.expenses ==> note.currency == s.expenses[e].head.fields.currency
    ensures e in s.expenses <==> s.txns[t].edit.Some?
    ensures e in s.expenses ==> s.txns[t].edit.value.0 == e
  {
    hide Valid, SplitOf, IsActive;
    assert Fresh(s.expenses, s.txns[t]);
  }

  /** One more post of an expense, in the currency of those before. */
  lemma PostedOnce(posts: seq<Head>, was: Option<Expense>, now: Expense, head: Head)
    requires now.head == head && now.written == posts + [head]
    requires if was.None? then posts == []
             else ExpenseIs(posts, was.value) && head.fields.currency == was.value.head.fields.currency
    ensures ExpenseIs(posts + [head], now)
  {
  }

  lemma WrittenIs(posts: seq<Head>, ex: Expense)
    requires ExpenseIs(posts, ex)
    ensures ex.written == posts
  {
  }

  lemma ExpensesArePosted(es: seq<Event>, s: State, t: nat, e: nat, note: Note, input: SplitInput)
    requires Enabled(s, Post(t, e, note, input)) && ExpensesAre(es, s.expenses) && EditsFresh(s)
    ensures ExpensesAre(es + [Post(t, e, note, input)], Step(s, Post(t, e, note, input)).expenses)
  {
    hide Enabled, Step, Posts, Valid, EditsFresh, ExpenseIs, SplitOf;
    var ev := Post(t, e, note, input);
    PostStep(s, t, e, note, input);
    var ex := Step(s, ev).expenses[e];
    if e in s.expenses { WrittenIs(Posts(es, e), s.expenses[e]); }
    PostedOnce(Posts(es, e), if e in s.expenses then Some(s.expenses[e]) else None, ex, PostedHead(note, input));
    forall e' { PostsSnoc(es, ev, e'); }
  }

  lemma ExpensesAreStep(es: seq<Event>, s: State, ev: Event)
    requires Enabled(s, ev) && ExpensesAre(es, s.expenses) && EditsFresh(s)
    ensures ExpensesAre(es + [ev], Step(s, ev).expenses)
  {
    hide Enabled, Step, Posts, Valid, EditsFresh;
    match ev
    case Post(t, e, note, input) => ExpensesArePosted(es, s, t, e, note, input);
    case _ =>
      forall e
        ensures if e in Step(s, ev).expenses then ExpenseIs(Posts(es + [ev], e), Step(s, ev).expenses[e])
                else Posts(es + [ev], e) == []
      {
        PostsSnoc(es, ev, e);
        ExpenseStep(s, ev, e);
      }
  }

  /** An open posting was open before with the same edit, or the event began it. */
  lemma PostingTx(s: State, ev: Event, t: nat)
    requires Enabled(s, ev) && t in Step(s, ev).txns && Step(s, ev).txns[t].Posting?
    ensures var tx := Step(s, ev).txns[t];
            || (t in s.txns && s.txns[t].Posting? && tx.edit == s.txns[t].edit) || tx.edit.None?
            || (ev.BeginEdit? && ev.expense in s.expenses && tx.edit == Some((ev.expense, s.expenses[ev.expense].head)))
  {
    hide CanMint, PostedExpense, Both, IsActive, Claimable, CanLock, SweptExpenses, MembersAfter, Valid, Writes,
         Holding, FoundRows, CanAccept, CanPost;
  }

  lemma FreshAfter(s: State, ev: Event, t: nat)
    requires Enabled(s, ev) && EditsFresh(s) && t in Step(s, ev).txns && !ev.Post?
    ensures Fresh(Step(s, ev).expenses, Step(s, ev).txns[t])
  {
    hide Enabled, Step;
    if Step(s, ev).txns[t].Posting? {
      PostingTx(s, ev, t);
      if Step(s, ev).txns[t].edit.Some? { ExpenseStep(s, ev, Step(s, ev).txns[t].edit.value.0); }
    }
  }

  lemma EditsFreshStep(s: State, ev: Event)
    requires Inv(s) && Enabled(s, ev) && EditsFresh(s)
    ensures EditsFresh(Step(s, ev))
  {
    hide Enabled, Step, MembersOk, InvitesOk, TxOk, RowsOk, Valid, SplitOf;
    var s' := Step(s, ev);
    forall t' | t' in s'.txns
      ensures Fresh(s'.expenses, s'.txns[t'])
    {
      match ev
      case Post(t, e, note, input) =>
        PostStep(s, t, e, note, input);
        assert Fresh(s.expenses, s.txns[t']) && Compatible(s.txns[t], s.txns[t']);
      case _ => FreshAfter(s, ev, t');
    }
  }

  lemma {:induction false} ExpensesRun(s: State, es: seq<Event>)
    requires Start(s) && Trace(s, es)
    ensures Inv(After(s, es)) && ExpensesAre(es, After(s, es).expenses) && EditsFresh(After(s, es))
    decreases |es|
  {
    hide Inv, Enabled, Step, Trace, ExpensesAre, EditsFresh;
    if es == [] {
      StartExpenses(s);
    } else {
      var before, ev := es[..|es| - 1], es[|es| - 1];
      TraceInit(s, es);
      ExpensesRun(s, before);
      InvStep(After(s, before), ev);
      ExpensesAreStep(before, After(s, before), ev);
      EditsFreshStep(After(s, before), ev);
      assert before + [ev] == es;
    }
  }

  lemma StartExpenses(s: State)
    requires Start(s)
    ensures Inv(s) && ExpensesAre([], s.expenses) && EditsFresh(s)
  {
    InvStart(s);
  }

  /**
   In every run an expense exists once posted, its columns are those of the last post, and every
   post of it was in the one currency.
   */
  lemma ExpensesAreTheirPosts(s: State, es: seq<Event>, e: nat)
    requires Start(s) && Trace(s, es)
    ensures var expenses, posts := After(s, es).expenses, Posts(es, e);
            && (e in expenses <==> posts != [])
            && (e in expenses ==> expenses[e].written == posts && expenses[e].head.fields == posts[|posts| - 1].fields)
            && (forall j, k :: 0 <= j < |posts| && 0 <= k < |posts| ==>
                  posts[j].fields.currency == posts[k].fields.currency)
  {
    hide Enabled, Step, Start, Posts, Inv;
    ExpensesRun(s, es);
  }

  /**
   A posting that commits is a valid split among active members, paid by one who is no
   placeholder, and leaves the expense with the columns asked and the split of the domain
   function; an edit adds one revision, which holds the columns of the post before.
   */
  lemma PostIsAsked(s: State, es: seq<Event>, t: nat, e: nat, note: Note, input: SplitInput)
    requires Start(s) && Trace(s, es + [Post(t, e, note, input)])
    ensures Trace(s, es) && Valid(input)
    ensures var was, now, posts := After(s, es), After(s, es + [Post(t, e, note, input)]), Posts(es, e);
            && (forall u :: u in input.participants || u == input.paidBy ==> IsActive(was.members, u))
            && input.paidBy in was.members && !was.members[input.paidBy].placeholder
            && e in now.expenses
            && now.expenses[e].head == Head(Fields(note.description, input.totalCents, note.currency, input.paidBy,
              note.category, note.isStaple), SplitOf(input))
            && (posts == [] ==> now.expenses[e].revisions == [])
            && (posts != [] ==>
                  && e in was.expenses && |now.expenses[e].revisions| == |was.expenses[e].revisions| + 1
                  && now.expenses[e].revisions[..|was.expenses[e].revisions|] == was.expenses[e].revisions
                  && var last := now.expenses[e].revisions[|was.expenses[e].revisions|];
                     last.Edited? && last.before.fields == posts[|posts| - 1].fields)
  {
    hide Inv, Start, Posts, Valid, SplitOf, IsActive, Writes, Step;
    var ev := Post(t, e, note, input);
    Snoc(es, ev);
    TraceInit(s, es + [ev]);
    ExpensesRun(s, es);
    PostStep(After(s, es), t, e, note, input);
    PostRevisions(After(s, es), t, e, note, input);
    HeldActive(After(s, es), t);
  }

  /** Only an active member begins an edit, and only of an expense that was posted. */
  lemma EditorIsMember(s: State, es: seq<Event>, t: nat, e: nat, editor: UserId)
    requires Start(s) && Trace(s, es + [BeginEdit(t, e, editor)])
    ensures Trace(s, es) && IsActive(After(s, es).members, editor) && Posts(es, e) != []
  {
    hide Inv, Start, Posts, IsActive, Step;
    Snoc(es, BeginEdit(t, e, editor));
    TraceInit(s, es + [BeginEdit(t, e, editor)]);
    ExpensesRun(s, es);
  }

  lemma PostRevisions(s: State, t: nat, e: nat, note: Note, input: SplitInput)
    requires Enabled(s, Post(t, e, note, input)) && EditsFresh(s)
    ensures e in Step(s, Post(t, e, note, input)).expenses
    ensures Step(s, Post(t, e, note, input)).expenses[e].revisions
         == if e in s.expenses then s.expenses[e].revisions + [Edited(s.txns[t].edit.value.1)] else []
    ensures e in s.expenses ==> s.txns[t].edit.Some? && Fresh(s.expenses, s.txns[t])
  {
    hide Valid, SplitOf, IsActive;
    assert Fresh(s.expenses, s.txns[t]);
  }

  lemma HeldActive(s: State, t: nat)
    requires Inv(s) && t in s.txns && s.txns[t].Posting?
    ensures forall u :: u in s.txns[t].held ==> IsActive(s.members, u)
  {
    hide RowsOk, Compatible, MembersOk, InvitesOk, IsActive;
    assert TxOk(s.accounts, s.members, s.invites, s.txns[t]);
  }

  // ---------- what a claim leaves ----------

  lemma {:induction false} ExactRun(s: State, es: seq<Event>)
    requires Inv(s) && AllExact(s) && Trace(s, es) && Solo(s, es)
    ensures AllExact(After(s, es))
    decreases |es|
  {
    hide Inv, AllExact, Apart, Enabled, Step;
    if es != [] {
      InvStep(s, es[0]);
      ExactStep(s, es[0]);
      ExactRun(Step(s, es[0]), es[1..]);
    }
  }

  /** The expense after the claim of placeholder `p` by `c`. */
  predicate IsClaimOf(was: Expense, now: Expense, p: UserId, c: UserId) {
    && now.head == was.head.(splits := ClaimSplits(was.head.splits, p, c))
    && was.revisions <= now.revisions && |now.revisions| <= |was.revisions| + 1
    && (forall k :: |was.revisions| <= k < |now.revisions| ==> now.revisions[k].Folded?)
    && (p in was.head.splits && c in was.head.splits ==> |now.revisions| == |was.revisions| + 1)
  }

  /**
   Where claims do not meet, the commit of an accept does to every expense what the claim of its
   events says: the shares move, and each expense in which both held one gets one revision.
   */
  lemma CommitIsClaim(s: State, es: seq<Event>, t: nat, e: nat)
    requires Start(s) && Trace(s, es) && Solo(s, es) && Enabled(After(s, es), Finish(t))
    ensures Opened(es, t).Some? && (e in Step(After(s, es), Finish(t)).expenses <==> e in After(s, es).expenses)
    ensures e in After(s, es).expenses ==>
              var (i, user) := Opened(es, t).value;
              var was, now := After(s, es).expenses[e], Step(After(s, es), Finish(t)).expenses[e];
              if TargetOf(es, i).Some? then IsClaimOf(was, now, TargetOf(es, i).value, user) else now == was
  {
    hide Inv, Start, Opened, TargetOf, Commits, AllExact, ClaimSplits, After, Trace, Solo, FinishStep, MembersOk,
         InvitesOk, RowsOk, Compatible;
    CleanStart(s);
    StartConserved(s);
    ExactRun(s, es);
    InvitesRun(s, es);
    FinishInvite(After(s, es), t);
    OpenedTarget(es, After(s, es), t);
    FinishKeys(After(s, es), t);
    if e in After(s, es).expenses { FinishLeaves(After(s, es), t, e); }
  }

  lemma OpenedTarget(es: seq<Event>, s: State, t: nat)
    requires Inv(s) && Enabled(s, Finish(t)) && OpenOk(es, s) && InvitesAre(es, s.invites)
    ensures t in s.txns && s.txns[t].Accepting? && Opened(es, t) == Some((s.txns[t].invite, s.txns[t].user))
            && s.txns[t].target == TargetOf(es, s.txns[t].invite)
  {
    hide RowsOk, Compatible, InvitesOk, MembersOk, Opened, TargetOf, Commits;
    FinishInvite(s, t);
    assert TxOk(s.accounts, s.members, s.invites, s.txns[t]);
    assert InviteIs(es, s.txns[t].invite, s.invites[s.txns[t].invite]);
  }

  lemma FinishKeys(s: State, t: nat)
    requires t in s.txns && s.txns[t].Accepting?
    ensures FinishStep(s, t).expenses.Keys == s.expenses.Keys
    ensures s.txns[t].target.None? ==> FinishStep(s, t).expenses == s.expenses
    ensures s.txns[t].target.Some? ==>
              forall e :: e in s.expenses ==> FinishStep(s, t).expenses[e] == SweptExpense(s.txns[t], e, s.expenses[e])
  {
    hide SweptExpense, MembersAfter;
  }

  lemma InBoth(expenses: Expenses, tx: Tx, e: nat)
    requires tx.Accepting? && tx.target.Some? && e in expenses
    ensures e in Both(expenses, tx) <==>
            tx.target.value in expenses[e].head.splits && tx.user in expenses[e].head.splits
  {
  }

  /** The claim appends a revision to each expense its first SELECT found. */
  lemma SweptRevisions(tx: Tx, e: nat, ex: Expense)
    requires tx.Accepting? && tx.target.Some?
    ensures SweptExpense(tx, e, ex).revisions == ex.revisions + if e in tx.folds then [Folded(tx.folds[e])] else []
  {
    hide Swept;
  }

  lemma FinishLeaves(s: State, t: nat, e: nat)
    requires Inv(s) && AllExact(s) && Enabled(s, Finish(t)) && e in s.expenses
    ensures e in FinishStep(s, t).expenses
    ensures var tx := s.txns[t];
            if tx.target.Some? then IsClaimOf(s.expenses[e], FinishStep(s, t).expenses[e], tx.target.value, tx.user)
            else FinishStep(s, t).expenses[e] == s.expenses[e]
  {
    hide Inv, AllExact, ClaimSplits, FinishStep, Both, SweptExpense;
    var tx := s.txns[t];
    FinishKeys(s, t);
    if tx.target.Some? {
      FinishIsClaim(s, t, e);
      SweptRevisions(tx, e, s.expenses[e]);
      ExactAt(s, t);
      InBoth(s.expenses, tx, e);
    }
  }

  // ---------- minting, and an accept that meets nobody ----------

  /**
   An invite that claims is minted if and only if its id is new and its placeholder was added, is
   not claimed, and is held by no open claim or posting.
   */
  lemma MintClaimsIff(s: State, es: seq<Event>, i: nat, p: UserId)
    requires Start(s) && Trace(s, es)
    ensures Enabled(After(s, es), Mint(i, Some(p))) <==>
            && (forall target :: Mint(i, target) !in es) && AddPlaceholder(p) in es
            && (forall c :: (p, c) !in Claimed(es))
            && forall t :: t in After(s, es).txns ==>
                 !LocksForUpdate(After(s, es).txns[t], p) && !LocksShared(After(s, es).txns[t], p)
  {
    hide Inv, Step, Start, Opened, Commits, TargetOf, After, Trace, Claimed, HasJoined, LocksForUpdate, LocksShared;
    UsesAreCommits(s, es, i);
    MembersAreTheirEvents(s, es, p);
    var members := After(s, es).members;
    assert p in members && members[p].claimedBy.Some? ==> (p, members[p].claimedBy.value) in Claimed(es);
  }

  lemma OneMore(s: State, ev: Event, es: seq<Event>)
    requires Enabled(s, ev) && Trace(Step(s, ev), es)
    ensures Trace(s, [ev] + es) && After(s, [ev] + es) == After(Step(s, ev), es)
  {
    hide Enabled, Step;
    assert ([ev] + es)[1..] == es;
  }

  lemma NoMore(s: State)
    ensures Trace(s, []) && After(s, []) == s
  {
  }

  /** Where nothing is open, a user with an account who is no member joins through any plain invite left open. */
  lemma LonePlainAccept(s: State, t: nat, i: nat, user: UserId)
    requires s.txns == map[] && user in s.accounts && !IsActive(s.members, user)
    requires i in s.invites && s.invites[i].target.None? && s.invites[i].open && s.invites[i].uses < 10
    ensures var es := [BeginAccept(t, i, user)] + ([Join(t)] + ([Finish(t)] + []));
            && Trace(s, es) && IsActive(After(s, es).members, user)
            && After(s, es).invites == s.invites[i := s.invites[i].(uses := s.invites[i].uses + 1)]
  {
    hide Trace, After, CanMint, CanEdit, CanShare, CanPost, CanAdd, CanRekey, PostedExpense, LookedTx, SnappedTx,
         RekeyedTx, FoundRows, Both, Claimable, CanLock, SweptExpenses;
    var s1 := Step(s, BeginAccept(t, i, user));
    var s2 := Step(s1, Join(t));
    NoMore(Step(s2, Finish(t)));
    OneMore(s2, Finish(t), []);
    OneMore(s1, Join(t), [Finish(t)] + []);
    OneMore(s, BeginAccept(t, i, user), [Join(t)] + ([Finish(t)] + []));
  }

  // ---------- aborts ----------

  /** From any state on, whatever is open may abort, and that leaves everything committed as it is. */
  lemma {:induction false} AllMayAbort(s: State)
    ensures exists es :: Trace(s, es) && After(s, es) == s.(txns := map[])
    decreases |s.txns|
  {
    if s.txns == map[] {
      assert Trace(s, []) && After(s, []) == s;
    } else {
      var t :| t in s.txns;
      var next := Step(s, Abort(t));
      assert next == s.(txns := s.txns - {t}) && s.txns == (s.txns - {t})[t := s.txns[t]];
      AllMayAbort(next);
      var es :| Trace(next, es) && After(next, es) == next.(txns := map[]);
      assert ([Abort(t)] + es)[1..] == es;
      assert Trace(s, [Abort(t)] + es) && After(s, [Abort(t)] + es) == s.(txns := map[]);
    }
  }

  /** At any time an invite may be closed, whatever is open. */
  lemma MayCloseAndAbort(s: State, i: nat)
    requires i in s.invites
    ensures exists es :: Trace(s, es)
                         && After(s, es) == s.(txns := map[], invites := s.invites[i := s.invites[i].(open := false)])
  {
    hide Trace, After;
    var next := Step(s, Close(i));
    AllMayAbort(next);
    var es :| Trace(next, es) && After(next, es) == next.(txns := map[]);
    OneMore(s, Close(i), es);
  }
}
