/**
 Two things the statements of a claim do not keep, each with a run from an empty house: one user
 claiming two placeholders of one expense at once loses a share, and an edit that commits between
 claimHistory's two SELECTs leaves a revision that mixes two states.
 */
module ClaimAnomalies {
  import opened Text
  import opened Sums
  import opened Splits
  import opened Balances
  import opened Claim
  import opened ClaimProtocol
  import opened ClaimLocks
  import opened ClaimLedger
  import opened ClaimHistory
  import opened ClaimMeetings

  ghost predicate Reaches(s: State, s': State) {
    exists es :: Trace(s, es) && After(s, es) == s'
  }

  lemma ReachSelf(s: State)
    ensures Reaches(s, s)
  {
    assert Trace(s, []) && After(s, []) == s;
  }

  lemma ReachStep(s: State, s': State, ev: Event)
    requires Reaches(s, s') && Enabled(s', ev)
    ensures Reaches(s, Step(s', ev))
  {
    hide Enabled, Step;
    var es :| Trace(s, es) && After(s, es) == s';
    TraceSnoc(s, es, ev);
  }

  lemma ReachOn(a: State, b: State, c: State, t: nat, user: UserId)
    requires Reaches(a, b) && Gets(b, c, t, user)
    ensures Reaches(a, c)
  {
    hide GoesOn;
    var es :| Trace(a, es) && After(a, es) == b;
    var fs :| Trace(b, fs) && GoesOn(fs, t, user) && After(b, fs) == c;
    TraceConcat(a, es, fs);
  }

  lemma InvReached(s: State, s': State)
    requires Inv(s) && Reaches(s, s')
    ensures Inv(s')
  {
    hide Inv, Enabled, Step;
    var es :| Trace(s, es) && After(s, es) == s';
    InvRun(s, es);
  }

  // ---------- runs from an empty house ----------

  // The house: its owner pays, "c" is a member, "p" and "q" are placeholders.
  const ACCOUNTS: set<UserId> := {"o", "c"}
  const MEMBER := Member(false, true, None)
  const WAITING := Member(true, true, None)
  const PEOPLE: Members := map["o" := MEMBER, "c" := MEMBER, "p" := WAITING, "q" := WAITING]
  const INVITES: Invites := map[1 := Invite(Some("p"), true, 0), 2 := Invite(Some("q"), true, 0)]

  const RENT := Note("rent", "USD", None, false)

  function Rent(cents: int): Fields {
    Fields("rent", cents, "USD", "o", None, false)
  }

  function Empty(): State {
    State(ACCOUNTS, map["o" := MEMBER, "c" := MEMBER], map[], map[], map[], [])
  }

  function Furnished(): State {
    State(ACCOUNTS, PEOPLE, INVITES, map[], map[], [])
  }

  function Half(x: UserId, y: UserId): SplitInput {
    SplitInput(100, "o", Equal, [x, y], None, None)
  }

  function Billed(x: UserId, y: UserId, txns: map<nat, Tx>): State {
    var head := Head(Rent(100), map[x := 50, y := 50]);
    State(ACCOUNTS, PEOPLE, INVITES, map[7 := Expense(head, [], [head], [(0, head)])], txns, [])
  }

  lemma Furnish()
    ensures Start(Empty()) && Reaches(Empty(), Furnished())
  {
    hide Trace, After, Reaches;
    var s0 := Empty();
    ReachSelf(s0);
    ReachStep(s0, s0, AddPlaceholder("p"));
    var s1 := Step(s0, AddPlaceholder("p"));
    ReachStep(s0, s1, AddPlaceholder("q"));
    var s2 := Step(s1, AddPlaceholder("q"));
    assert s2 == State(ACCOUNTS, PEOPLE, map[], map[], map[], []);
    ReachStep(s0, s2, Mint(1, Some("p")));
    var s3 := Step(s2, Mint(1, Some("p")));
    ReachStep(s0, s3, Mint(2, Some("q")));
    assert Step(s3, Mint(2, Some("q"))) == Furnished();
  }

  lemma HalfSplits(x: UserId, y: UserId)
    requires x != y
    ensures Valid(Half(x, y)) && SplitOf(Half(x, y)) == map[x := 50, y := 50]
  {
    var input := Half(x, y);
    assert SetOf(input.participants) == {x, y} by { assert x in input.participants && y in input.participants; }
    assert |{x, y}| == 2;
    var floors := Floors({x, y}, input);
    SumConst({x, y}, floors, 50);
  }

  lemma Bill(x: UserId, y: UserId)
    requires x in PEOPLE && y in PEOPLE && x != y
    ensures Reaches(Empty(), Billed(x, y, map[]))
  {
    hide Trace, After, Reaches, Valid, SplitOf;
    Furnish();
    var s0 := Furnished();
    ReachStep(Empty(), s0, BeginPost(0));
    var s1 := s0.(txns := map[0 := Posting({}, None)]);
    assert Step(s0, BeginPost(0)) == s1;
    var s2 := LockAll(s1, x, y);
    HalfSplits(x, y);
    assert SetOf(Half(x, y).participants) == {x, y} by {
      assert x in Half(x, y).participants && y in Half(x, y).participants;
    }
    ReachStep(Empty(), s2, Post(0, 7, RENT, Half(x, y)));
    assert Step(s2, Post(0, 7, RENT, Half(x, y))) == Billed(x, y, map[]);
  }

  lemma LockAll(s: State, x: UserId, y: UserId) returns (s': State)
    requires s == Furnished().(txns := map[0 := Posting({}, None)]) && Reaches(Empty(), s) && x in PEOPLE && y in PEOPLE
    ensures s' == Furnished().(txns := map[0 := Posting({"o", x, y}, None)]) && Reaches(Empty(), s')
  {
    hide Trace, After, Reaches;
    ReachStep(Empty(), s, LockMember(0, "o"));
    var s1 := Step(s, LockMember(0, "o"));
    ReachStep(Empty(), s1, LockMember(0, x));
    var s2 := Step(s1, LockMember(0, x));
    ReachStep(Empty(), s2, LockMember(0, y));
    s' := Step(s2, LockMember(0, y));
    assert s'.txns[0].held == {"o", x, y};
    assert s'.txns == map[0 := Posting({"o", x, y}, None)];
  }

  /** An open claim of `x` by "c" through invite `i`, which has written the splits of `rekeyed`. */
  function ClaimTx(i: nat, x: UserId, stage: Stage, folds: map<nat, Head>, rekeyed: set<nat>): Tx {
    Accepting(i, "c", Some(x), false, false, stage, folds, {}, {}, {}, rekeyed)
  }

  predicate Free(txns: map<nat, Tx>, i: nat, x: UserId) {
    && (i, x) in {(1, "p"), (2, "q")} && i !in txns
    && (forall t :: t in txns && txns[t].Accepting? ==>
       txns[t].invite != i && txns[t].target != Some(x) && !txns[t].joining)
    && (forall t :: t in txns && txns[t].Posting? ==> x !in txns[t].held)
  }

  lemma BeginClaim(y: UserId, txns: map<nat, Tx>, i: nat, x: UserId)
    requires Free(txns, i, x)
    ensures var s := Billed("p", y, txns);
            Enabled(s, BeginAccept(i, i, "c"))
            && Step(s, BeginAccept(i, i, "c")) == Billed("p", y, txns[i := ClaimTx(i, x, Begun, map[], {})])
  {
  }

  lemma LockClaim(y: UserId, txns: map<nat, Tx>, i: nat, x: UserId)
    requires Free(txns, i, x)
    ensures var s := Billed("p", y, txns[i := ClaimTx(i, x, Begun, map[], {})]);
            Enabled(s, LockTarget(i))
              && Step(s, LockTarget(i)) == Billed("p", y, txns[i := ClaimTx(i, x, Locked, map[], {})])
  {
  }

  lemma JoinClaim(y: UserId, txns: map<nat, Tx>, i: nat, x: UserId)
    requires Free(txns, i, x)
    ensures var s := Billed("p", y, txns[i := ClaimTx(i, x, Locked, map[], {})]);
            Enabled(s, Join(i)) && Step(s, Join(i)) == Billed("p", y, txns[i := ClaimTx(i, x, Joined, map[], {})])
  {
  }

  /** The claim locks its rows and gets as far as its first SELECT. */
  lemma OpenClaim(y: UserId, txns: map<nat, Tx>, i: nat, x: UserId)
    requires Free(txns, i, x) && Reaches(Empty(), Billed("p", y, txns))
    ensures Reaches(Empty(), Billed("p", y, txns[i := ClaimTx(i, x, Joined, map[], {})]))
  {
    hide Reaches, Enabled, Step, Billed, Empty;
    BeginClaim(y, txns, i, x);
    LockClaim(y, txns, i, x);
    JoinClaim(y, txns, i, x);
    ReachStep(Empty(), Billed("p", y, txns), BeginAccept(i, i, "c"));
    ReachStep(Empty(), Billed("p", y, txns[i := ClaimTx(i, x, Begun, map[], {})]), LockTarget(i));
    ReachStep(Empty(), Billed("p", y, txns[i := ClaimTx(i, x, Locked, map[], {})]), Join(i));
  }

  // Neither placeholder shares the expense with "c": the claim folds nothing.

  lemma NothingToFold(txns: map<nat, Tx>, i: nat, x: UserId)
    requires (i, x) in {(1, "p"), (2, "q")}
    ensures var expenses := Billed("p", "q", txns).expenses;
            Holding(expenses, x) == {7} && Holding(expenses, "c") == {}
            && forall stage, rekeyed :: Both(expenses, ClaimTx(i, x, stage, map[], rekeyed)) == {}
  {
  }

  lemma LookNothing(s: State, t: nat)
    requires ClaimAt(s, t, Joined) && Both(s.expenses, s.txns[t]) == {}
    ensures Enabled(s, Look(t)) && Step(s, Look(t)) == SetTx(s, t, s.txns[t].(stage := Looked, folds := map[]))
  {
    hide Both;
    assert LookedTx(s, t).folds == map[];
  }

  lemma SnapNothing(s: State, t: nat)
    requires ClaimAt(s, t, Looked) && s.txns[t].folds == map[]
    ensures Enabled(s, Snap(t)) && Step(s, Snap(t)) == SetTx(s, t, s.txns[t].(stage := Snapped))
  {
    assert SnappedTx(s, t).folds == map[];
  }

  lemma FindNothing(s: State, t: nat)
    requires ClaimAt(s, t, Snapped) && Both(s.expenses, s.txns[t]) == {}
    ensures Enabled(s, FindShares(t)) && Step(s, FindShares(t)) == SetTx(s, t, s.txns[t].(stage := Adding, found := {}))
  {
    hide Both;
  }

  lemma AddNothing(s: State, t: nat)
    requires ClaimAt(s, t, Adding) && s.txns[t].found == {}
    ensures Enabled(s, AddShares(t)) && Step(s, AddShares(t)) == SetTx(s, t, s.txns[t].(stage := Added, added := {}))
  {
    hide Both;
    assert FoundRows(s, t) == {};
  }

  lemma DeleteNothing(s: State, t: nat)
    requires ClaimAt(s, t, Added) && Both(s.expenses, s.txns[t]) == {}
    ensures Enabled(s, DeleteShares(t))
            && Step(s, DeleteShares(t)) == SetTx(s, t, s.txns[t].(stage := Deleted, deleted := {}))
  {
    hide Both;
  }

  lemma ReplaceTx(y: UserId, txns: map<nat, Tx>, i: nat, a: Tx, b: Tx)
    ensures Billed("p", y, txns[i := a]).txns[i] == a
            && (txns == map[] ==> Billed("p", y, txns[i := a]).txns.Keys == {i})
    ensures SetTx(Billed("p", y, txns[i := a]), i, b) == Billed("p", y, txns[i := b])
  {
    assert txns[i := a][i := b] == txns[i := b];
  }

  lemma ClaimTxAt(y: UserId, txns: map<nat, Tx>, i: nat, x: UserId, stage: Stage, folds: map<nat, Head>,
                  rekeyed: set<nat>)
    ensures ClaimAt(Billed("p", y, txns[i := ClaimTx(i, x, stage, folds, rekeyed)]), i, stage)
  {
  }

  lemma RunToAdded(txns: map<nat, Tx>, i: nat, x: UserId)
    requires Free(txns, i, x) && Reaches(Empty(), Billed("p", "q", txns))
    ensures Reaches(Empty(), Billed("p", "q", txns[i := ClaimTx(i, x, Added, map[], {})]))
  {
    hide Reaches, Enabled, Step, Billed, Empty, SetTx, Both, ClaimAt;
    OpenClaim("q", txns, i, x);
    var joined, looked := ClaimTx(i, x, Joined, map[], {}), ClaimTx(i, x, Looked, map[], {});
    var snapped, adding := ClaimTx(i, x, Snapped, map[], {}), ClaimTx(i, x, Adding, map[], {});
    ReplaceTx("q", txns, i, joined, looked);
    ReplaceTx("q", txns, i, looked, snapped);
    ReplaceTx("q", txns, i, snapped, adding);
    ReplaceTx("q", txns, i, adding, ClaimTx(i, x, Added, map[], {}));
    ClaimTxAt("q", txns, i, x, Joined, map[], {});
    ClaimTxAt("q", txns, i, x, Looked, map[], {});
    ClaimTxAt("q", txns, i, x, Snapped, map[], {});
    ClaimTxAt("q", txns, i, x, Adding, map[], {});
    NothingToFold(txns[i := joined], i, x);
    NothingToFold(txns[i := snapped], i, x);
    LookNothing(Billed("p", "q", txns[i := joined]), i);
    ReachStep(Empty(), Billed("p", "q", txns[i := joined]), Look(i));
    SnapNothing(Billed("p", "q", txns[i := looked]), i);
    ReachStep(Empty(), Billed("p", "q", txns[i := looked]), Snap(i));
    FindNothing(Billed("p", "q", txns[i := snapped]), i);
    ReachStep(Empty(), Billed("p", "q", txns[i := snapped]), FindShares(i));
    AddNothing(Billed("p", "q", txns[i := adding]), i);
    ReachStep(Empty(), Billed("p", "q", txns[i := adding]), AddShares(i));
  }

  lemma RekeyAll(s: State, t: nat)
    requires ClaimAt(s, t, Deleted) && Both(s.expenses, s.txns[t]) == {} && s.txns[t].deleted == {}
             && s.txns.Keys == {t}
    ensures Enabled(s, Rekey(t))
    ensures Step(s, Rekey(t))
            == SetTx(s, t, s.txns[t].(stage := Rekeyed, rekeyed := Holding(s.expenses, s.txns[t].target.value)))
  {
    hide Holding;
    assert Holding(s.expenses, s.txns[t].target.value) - {} == Holding(s.expenses, s.txns[t].target.value);
  }

  lemma RunToRekeyed()
    ensures Reaches(Empty(), Billed("p", "q", map[][1 := ClaimTx(1, "p", Rekeyed, map[], {7})]))
  {
    hide Reaches, Enabled, Step, Billed, Empty, SetTx, Both, ClaimAt;
    Bill("p", "q");
    RunToAdded(map[], 1, "p");
    var added, deleted := ClaimTx(1, "p", Added, map[], {}), ClaimTx(1, "p", Deleted, map[], {});
    ReplaceTx("q", map[], 1, added, deleted);
    ReplaceTx("q", map[], 1, deleted, ClaimTx(1, "p", Rekeyed, map[], {7}));
    ClaimTxAt("q", map[], 1, "p", Added, map[], {});
    NothingToFold(map[][1 := added], 1, "p");
    DeleteNothing(Billed("p", "q", map[][1 := added]), 1);
    ReachStep(Empty(), Billed("p", "q", map[][1 := added]), DeleteShares(1));
    ClaimTxAt("q", map[], 1, "p", Deleted, map[], {});
    NothingToFold(map[][1 := deleted], 1, "p");
    RekeyAll(Billed("p", "q", map[][1 := deleted]), 1);
    ReachStep(Empty(), Billed("p", "q", map[][1 := deleted]), Rekey(1));
  }

  /** "c" has re-keyed the share of "p" to itself and has passed the UPDATE for that of "q". */
  function Overlap(): State {
    Billed("p", "q", map[1 := ClaimTx(1, "p", Rekeyed, map[], {7})][2 := ClaimTx(2, "q", Added, map[], {})])
  }

  lemma ReachOverlap()
    ensures Reaches(Empty(), Overlap())
  {
    hide Reaches, Billed, Empty;
    RunToRekeyed();
    assert map[][1 := ClaimTx(1, "p", Rekeyed, map[], {7})] == map[1 := ClaimTx(1, "p", Rekeyed, map[], {7})];
    RunToAdded(map[1 := ClaimTx(1, "p", Rekeyed, map[], {7})], 2, "q");
  }

  lemma OverlapShares()
    ensures Overlapped(Overlap(), 1, 2, 7) && Overlap().txns[2].target == Some("q")
            && Get(Overlap().expenses[7].head.splits, "q") == 50
    ensures Total(Overlap().expenses[7].head.splits) == 100 && Overlap().expenses[7].head.fields.amountCents == 100
  {
    hide Total;
    var one: map<UserId, int> := map["p" := 50];
    assert one == map[]["p" := 50] && map["p" := 50, "q" := 50] == one["q" := 50];
    SumEmpty<UserId>(map[]);
    TotalInsert(map[], "p", 50);
    TotalInsert(one, "q", 50);
  }

  lemma OverlapTxns()
    ensures Overlap().txns.Keys == {1, 2} && Overlap().txns[2].Accepting? && Overlap().txns[2].user == "c"
  {
  }

  lemma CommitStep(s: State, t: nat)
    requires ClaimAt(s, t, Rekeyed)
    ensures Enabled(s, Finish(t)) && Step(s, Finish(t)) == FinishStep(s, t)
    ensures FinishStep(s, t).txns == s.txns - {t} && FinishStep(s, t).expenses.Keys == s.expenses.Keys
  {
    hide SweptExpense, MembersAfter;
  }

  /**
   A run from an empty house in which a user accepts two claim invites at once: afterwards no
   transaction is open, and an expense of 100 has splits that sum to 50.
   */
  lemma TwoClaimsAtOnceLoseAShare()
    ensures exists s, es, e :: Start(s) && Trace(s, es) && After(s, es).txns == map[] && e in After(s, es).expenses
                               && After(s, es).expenses[e].head.fields.amountCents == 100
                               && Total(After(s, es).expenses[e].head.splits) == 50
  {
    hide Enabled, Inv, Total, Overlap, Overlapped, Start, Reaches, Gets, FinishStep, NoOther;
    ReachOverlap();
    OverlapShares();
    Furnish();
    InvStart(Empty());
    InvReached(Empty(), Overlap());
    var s := OverlapLosesShare(Overlap(), 1, 2, 7);
    OverlapTxns();
    ReachOn(Empty(), Overlap(), s, 2, "c");
    CommitStep(s, 2);
    ReachStep(Empty(), s, Finish(2));
    ReachedBy(Empty(), FinishStep(s, 2));
  }

  // ---------- a revision of two states ----------

  const BILLED := Head(Rent(100), map["p" := 50, "c" := 50])
  const TRIMMED := Head(Rent(60), map["c" := 60])

  /** The owner's edit of the expense, with its rows locked. */
  function EditTx(held: set<UserId>): Tx {
    Posting(held, Some((7, BILLED)))
  }

  /** The house after the edit has committed. */
  function Trimmed(claim: Tx): State {
    State(ACCOUNTS, PEOPLE, INVITES,
          map[7 := Expense(TRIMMED, [Edited(BILLED)], [BILLED, TRIMMED], [(0, BILLED), (1, TRIMMED)])], map[1 := claim],
            [])
  }

  function Alone(): SplitInput {
    SplitInput(60, "o", Equal, ["c"], None, None)
  }

  lemma AloneSplits()
    ensures Valid(Alone()) && SplitOf(Alone()) == map["c" := 60] && SetOf(Alone().participants) == {"c"}
  {
    assert "c" in Alone().participants;
    assert SetOf(Alone().participants) == {"c"};
    var floors := Floors({"c"}, Alone());
    SumConst({"c"}, floors, 60);
  }

  /** The edit begins and locks its members. */
  lemma OpenEdit()
    ensures Reaches(Empty(), Billed("p", "c", map[][5 := EditTx({"o", "c"})]))
  {
    hide Reaches, Trace, After;
    Bill("p", "c");
    var s := Billed("p", "c", map[]);
    ReachStep(Empty(), s, BeginEdit(5, 7, "o"));
    var s1 := Step(s, BeginEdit(5, 7, "o"));
    ReachStep(Empty(), s1, LockMember(5, "o"));
    var s2 := Step(s1, LockMember(5, "o"));
    ReachStep(Empty(), s2, LockMember(5, "c"));
    assert Step(s2, LockMember(5, "c")).txns[5].held == {"o", "c"};
    assert Step(s2, LockMember(5, "c")).txns == map[][5 := EditTx({"o", "c"})];
  }

  /** The claim's first SELECT sees the expense as it was billed. */
  lemma LookBilled(txns: map<nat, Tx>)
    requires 1 !in txns
    ensures var s := Billed("p", "c", txns[1 := ClaimTx(1, "p", Joined, map[], {})]);
            Enabled(s, Look(1)) && Step(s, Look(1)) == SetTx(s, 1, ClaimTx(1, "p", Looked, map[7 := BILLED], {}))
  {
    var s := Billed("p", "c", txns[1 := ClaimTx(1, "p", Joined, map[], {})]);
    assert Both(s.expenses, s.txns[1]) == {7};
    assert LookedTx(s, 1).folds == map[7 := BILLED];
  }

  lemma LookedBeforeEdit()
    ensures Reaches(Empty(), Between())
  {
    hide Reaches, Enabled, Step, Billed, Empty, SetTx;
    var edit := map[5 := EditTx({"o", "c"})];
    OpenEdit();
    assert map[][5 := EditTx({"o", "c"})] == edit;
    OpenClaim("c", edit, 1, "p");
    LookBilled(edit);
    ReachStep(Empty(), Billed("p", "c", edit[1 := ClaimTx(1, "p", Joined, map[], {})]), Look(1));
    ReplaceTx("c", edit, 1, ClaimTx(1, "p", Joined, map[], {}), ClaimTx(1, "p", Looked, map[7 := BILLED], {}));
    assert edit[1 := ClaimTx(1, "p", Looked, map[7 := BILLED], {})]
        == map[5 := EditTx({"o", "c"}), 1 := ClaimTx(1, "p", Looked, map[7 := BILLED], {})];
  }

  /** The claim has looked and the edit holds its rows. */
  function Between(): State {
    Billed("p", "c", map[5 := EditTx({"o", "c"}), 1 := ClaimTx(1, "p", Looked, map[7 := BILLED], {})])
  }

  /** The edit commits, and the claim's second SELECT reads the new splits. */
  lemma EditCommits()
    ensures Enabled(Between(), Post(5, 7, RENT, Alone()))
    ensures Step(Between(), Post(5, 7, RENT, Alone())) == Trimmed(ClaimTx(1, "p", Looked, map[7 := BILLED], {}))
  {
    hide Valid, SplitOf, PostedExpense, CanPost, Enabled, Step, Between, Trimmed;
    EditMayPost();
    PostStep(Between(), 5, 7, RENT, Alone());
    EditWrites();
    EditLeaves();
  }

  lemma EditLeaves()
    ensures var s, claim := Between(), ClaimTx(1, "p", Looked, map[7 := BILLED], {});
            7 in Trimmed(claim).expenses
            && s.(expenses := s.expenses[7 := Trimmed(claim).expenses[7]], txns := s.txns - {5}) == Trimmed(claim)
  {
    var claim := ClaimTx(1, "p", Looked, map[7 := BILLED], {});
    assert map[5 := EditTx({"o", "c"}), 1 := claim] - {5} == map[1 := claim];
    assert Between().expenses[7 := Trimmed(claim).expenses[7]] == Trimmed(claim).expenses;
  }

  lemma PostStep(s: State, t: nat, e: nat, note: Note, input: SplitInput)
    requires CanPost(s, t, e, note, input)
    ensures Enabled(s, Post(t, e, note, input))
    ensures Step(s, Post(t, e, note, input))
            == s.(expenses := s.expenses[e := PostedExpense(s, t, e, note, input)], txns := s.txns - {t})
  {
    hide PostedExpense, CanPost;
  }

  lemma EditMayPost()
    ensures CanPost(Between(), 5, 7, RENT, Alone())
  {
    hide Valid, SplitOf;
    AloneSplits();
  }

  lemma EditWrites()
    requires CanPost(Between(), 5, 7, RENT, Alone())
    ensures PostedExpense(Between(), 5, 7, RENT, Alone())
            == Trimmed(ClaimTx(1, "p", Looked, map[7 := BILLED], {})).expenses[7]
  {
    hide Valid, SplitOf, CanPost;
    AloneSplits();
  }

  const MIXED := Head(Rent(100), map["c" := 60])

  function MixedTx(stage: Stage): Tx {
    ClaimTx(1, "p", stage, map[7 := MIXED], {})
  }

  lemma SnapOne(s: State, t: nat, e: nat, before: Head)
    requires ClaimAt(s, t, Looked) && s.txns[t].folds == map[e := before] && e in s.expenses
    ensures Enabled(s, Snap(t))
    ensures Step(s, Snap(t)) ==
              SetTx(s, t, s.txns[t].(stage := Snapped, folds := map[e := before.(splits := s.expenses[e].head.splits)]))
  {
    assert SnappedTx(s, t).folds == map[e := before.(splits := s.expenses[e].head.splits)];
  }

  lemma SnapMixes()
    ensures var s := Trimmed(ClaimTx(1, "p", Looked, map[7 := BILLED], {}));
            Enabled(s, Snap(1)) && Step(s, Snap(1)) == Trimmed(MixedTx(Snapped))
  {
    hide Enabled, Step;
    SnapOne(Trimmed(ClaimTx(1, "p", Looked, map[7 := BILLED], {})), 1, 7, BILLED);
    ReplaceTrimmed(ClaimTx(1, "p", Looked, map[7 := BILLED], {}), MixedTx(Snapped));
  }

  lemma NothingLeft(tx: Tx)
    requires tx.Accepting? && tx.target == Some("p") && tx.user == "c"
    ensures Both(Trimmed(tx).expenses, tx) == {} == Holding(Trimmed(tx).expenses, "p")
  {
  }

  lemma ReplaceTrimmed(a: Tx, b: Tx)
    ensures SetTx(Trimmed(a), 1, b) == Trimmed(b)
  {
    assert map[1 := a][1 := b] == map[1 := b];
  }

  /** The rest of the claim finds no row to write. */
  lemma MixedToAdded()
    requires Reaches(Empty(), Trimmed(MixedTx(Snapped)))
    ensures Reaches(Empty(), Trimmed(MixedTx(Added)))
  {
    hide Reaches, Enabled, Step, Empty, Both, Holding, SetTx;
    NothingLeft(MixedTx(Snapped));
    FindNothing(Trimmed(MixedTx(Snapped)), 1);
    ReachStep(Empty(), Trimmed(MixedTx(Snapped)), FindShares(1));
    ReplaceTrimmed(MixedTx(Snapped), MixedTx(Adding));
    AddNothing(Trimmed(MixedTx(Adding)), 1);
    ReachStep(Empty(), Trimmed(MixedTx(Adding)), AddShares(1));
    ReplaceTrimmed(MixedTx(Adding), MixedTx(Added));
  }

  lemma MixedToRekeyed()
    requires Reaches(Empty(), Trimmed(MixedTx(Added)))
    ensures Reaches(Empty(), Trimmed(MixedTx(Rekeyed)))
  {
    hide Reaches, Enabled, Step, Empty, Both, Holding, SetTx;
    NothingLeft(MixedTx(Added));
    DeleteNothing(Trimmed(MixedTx(Added)), 1);
    ReachStep(Empty(), Trimmed(MixedTx(Added)), DeleteShares(1));
    ReplaceTrimmed(MixedTx(Added), MixedTx(Deleted));
    NothingLeft(MixedTx(Deleted));
    RekeyAll(Trimmed(MixedTx(Deleted)), 1);
    ReachStep(Empty(), Trimmed(MixedTx(Deleted)), Rekey(1));
    ReplaceTrimmed(MixedTx(Deleted), MixedTx(Rekeyed));
  }

  lemma FinishMixed()
    ensures var s := Trimmed(MixedTx(Rekeyed));
            && Enabled(s, Finish(1)) && 7 in Step(s, Finish(1)).expenses
            && Step(s, Finish(1)).expenses[7].revisions == [Edited(BILLED), Folded(MIXED)]
  {
  }

  /** A run after which the revision a claim left has splits that do not sum to its amount. */
  lemma EditBetweenSelectsMixesARevision()
    ensures exists s, es :: Start(s) && Trace(s, es) && 7 in After(s, es).expenses
                         && After(s, es).expenses[7].revisions == [Edited(BILLED), Folded(MIXED)]
    ensures Total(MIXED.splits) == 60 && MIXED.fields.amountCents == 100
  {
    hide Reaches, Enabled, Step, Empty, Start, Total, Trimmed, Between;
    Furnish();
    LookedBeforeEdit();
    EditCommits();
    ReachStep(Empty(), Between(), Post(5, 7, RENT, Alone()));
    SnapMixes();
    ReachStep(Empty(), Trimmed(ClaimTx(1, "p", Looked, map[7 := BILLED], {})), Snap(1));
    MixedToAdded();
    MixedToRekeyed();
    FinishMixed();
    ReachStep(Empty(), Trimmed(MixedTx(Rekeyed)), Finish(1));
    ReachedBy(Empty(), Step(Trimmed(MixedTx(Rekeyed)), Finish(1)));
    TotalInsert(map[], "c", 60);
    SumEmpty<UserId>(map[]);
    assert map[]["c" := 60] == MIXED.splits;
  }

  lemma ReachedBy(s: State, s': State)
    requires Reaches(s, s')
    ensures exists es :: Trace(s, es) && After(s, es) == s'
  {
  }
}
