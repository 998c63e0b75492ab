/**
 A placeholder claim (claimHistory in apps/api/src/houses/invites.service.ts): the three SQL
 statements that make the placeholder's splits the claimer's, the revisions they leave, and
 how the claim commutes with the balance function.
 */
module Claim {
  import opened Text
  import opened Sums
  import opened Splits
  import opened Balances
  import opened BalanceLaws

  /** One expense's splits after `claimer` takes over `placeholder`'s share. */
  function ClaimSplits(splits: map<UserId, int>, placeholder: UserId, claimer: UserId): map<UserId, int> {
    if placeholder in splits then
      (splits - {placeholder})[claimer := Get(splits, claimer) + splits[placeholder]]
    else splits
  }

  /** Both already hold a share, so the claim changes an amount and must be revisioned. */
  predicate Folds(splits: map<UserId, int>, placeholder: UserId, claimer: UserId) {
    placeholder in splits && claimer in splits
  }

  // ---------- the splits table ----------

  /** The columns of an expense that revisions snapshot. */
  datatype Fields = Fields(
    description: string, amountCents: int, currency: string, paidBy: UserId, category: Option<string>, isStaple: bool)

  /** An expense with its splits, as a revision records it. */
  datatype Head = Head(fields: Fields, splits: map<UserId, int>)

  type SplitTable = map<(nat, UserId), int>

  function UsersIn(table: SplitTable): set<UserId> {
    set k | k in table :: k.1
  }

  /** The splits of one expense. */
  function SplitsIn(table: SplitTable, expense: nat): map<UserId, int> {
    map u | u in UsersIn(table) && (expense, u) in table :: table[(expense, u)]
  }

  class SplitRows {
    /** The `expenses` rows, by id. */
    const expenses: map<nat, Fields>
    /** `expense_splits`, keyed by its primary key. */
    var table: SplitTable
    /** The `expense_revisions` rows: expense id and the whole state before the fold. */
    var revisions: seq<(nat, Head)>

    constructor (expenses: map<nat, Fields>, table: SplitTable)
      ensures this.expenses == expenses && this.table == table && revisions == []
    {
      this.expenses, this.table, revisions := expenses, table, [];
    }

    /** The expenses in which both users hold a split. */
    function Folded(placeholder: UserId, claimer: UserId): (ids: set<nat>)
      reads this
      ensures forall e :: e in ids <==> Folds(SplitsIn(table, e), placeholder, claimer)
    {
      set k | k in table && k.1 == placeholder && (k.0, claimer) in table :: k.0
    }

    /**
     claimHistory's writes: snapshot the folded expenses, add the placeholder's amounts to the
     claimer's rows, delete the rows that were added, re-key the rest.
     */
    method ClaimHistory(placeholder: UserId, claimer: UserId)
      requires placeholder != claimer
      requires forall k :: k in table ==> k.0 in expenses // the foreign key
      modifies this
      ensures forall e: nat :: SplitsIn(table, e) == ClaimSplits(old(SplitsIn(table, e)), placeholder, claimer)
      ensures |revisions| >= |old(revisions)| && revisions[..|old(revisions)|] == old(revisions)
      ensures forall e: nat, h: Head :: (e, h) in revisions[|old(revisions)|..] <==>
                  e in expenses && h == Head(expenses[e], old(SplitsIn(table, e)))
                    && Folds(h.splits, placeholder, claimer)
      ensures forall i, j :: |old(revisions)| <= i < j < |revisions| ==> revisions[i].0 != revisions[j].0
    {
      ghost var before := table;
      ghost var revisions0 := revisions;
      var todo := Folded(placeholder, claimer);
      ghost var folded := todo;
      while todo != {}
        invariant table == before && todo <= folded
        invariant |revisions| >= |revisions0| && revisions[..|revisions0|] == revisions0
        invariant forall e: nat, h: Head :: (e, h) in revisions[|revisions0|..] <==>
                    e in folded - todo && e in expenses && h == Head(expenses[e], SplitsIn(before, e))
        invariant forall i, j :: |revisions0| <= i < j < |revisions| ==> revisions[i].0 != revisions[j].0
        decreases todo
      {
        var e :| e in todo;
        ghost var was := revisions;
        assert (e, placeholder) in table;
        revisions := revisions + [(e, Head(expenses[e], SplitsIn(table, e)))];
        assert revisions[|revisions0|..] == was[|revisions0|..] + [(e, Head(expenses[e], SplitsIn(before, e)))];
        forall i | |revisions0| <= i < |was|
          ensures was[i].0 != e
        {
          assert was[i] == was[|revisions0|..][i - |revisions0|];
          assert (was[i].0, was[i].1) in was[|revisions0|..];
        }
        todo := todo - {e};
      }
      AddTheirs(placeholder, claimer);
      DeleteAdded(placeholder, claimer);
      RekeyRest(placeholder, claimer);
      ClaimIsThreeStatements(before, table, placeholder, claimer);
    }

    /** UPDATE mine SET amount = mine.amount + theirs.amount */
    method AddTheirs(placeholder: UserId, claimer: UserId)
      modifies this`table
      ensures table == Added(old(table), placeholder, claimer)
    {
      table := map k | k in table ::
        if k.1 == claimer && (k.0, placeholder) in table then table[k] + table[(k.0, placeholder)] else table[k];
    }

    /** DELETE theirs WHERE mine exists */
    method DeleteAdded(placeholder: UserId, claimer: UserId)
      modifies this`table
      ensures table == Deleted(old(table), placeholder, claimer)
    {
      table := map k | k in table && !(k.1 == placeholder && (k.0, claimer) in table) :: table[k];
    }

    /** UPDATE SET user_id = claimer WHERE user_id = placeholder */
    method RekeyRest(placeholder: UserId, claimer: UserId)
      requires placeholder != claimer
      requires forall e :: (e, placeholder) in table ==> (e, claimer) !in table // the primary key
      modifies this`table
      ensures table == Rekeyed(old(table), placeholder, claimer)
    {
      table := map k | k in RekeyedKeys(table, placeholder, claimer) ::
        if k in table then table[k] else table[(k.0, placeholder)];
    }
  }

  function Added(table: SplitTable, p: UserId, c: UserId): SplitTable {
    map k | k in table :: if k.1 == c && (k.0, p) in table then table[k] + table[(k.0, p)] else table[k]
  }

  function Deleted(table: SplitTable, p: UserId, c: UserId): SplitTable {
    map k | k in table && !(k.1 == p && (k.0, c) in table) :: table[k]
  }

  function RekeyedKeys(table: SplitTable, p: UserId, c: UserId): (keys: set<(nat, UserId)>)
    ensures forall k :: k in keys <==> (k in table && k.1 != p) || (k.1 == c && (k.0, p) in table)
  {
    (set k | k in table && k.1 != p) + (set k | k in table && k.1 == p :: (k.0, c))
  }

  /** Each of the placeholder's rows under the claimer's key. */
  function Rekeyed(table: SplitTable, p: UserId, c: UserId): SplitTable {
    map k | k in RekeyedKeys(table, p, c) :: if k in table then table[k] else table[(k.0, p)]
  }

  lemma SplitsInAt(table: SplitTable, e: nat, u: UserId)
    ensures u in SplitsIn(table, e) <==> (e, u) in table
    ensures u in SplitsIn(table, e) ==> SplitsIn(table, e)[u] == table[(e, u)]
  {
  }

  /** The statements together do to each expense what ClaimSplits says. */
  lemma ClaimIsThreeStatements(before: SplitTable, after: SplitTable, p: UserId, c: UserId)
    requires p != c && after == Rekeyed(Deleted(Added(before, p, c), p, c), p, c)
    ensures forall e :: SplitsIn(after, e) == ClaimSplits(SplitsIn(before, e), p, c)
  {
    hide SplitsIn;
    forall e
      ensures SplitsIn(after, e) == ClaimSplits(SplitsIn(before, e), p, c)
    {
      var was, now := SplitsIn(before, e), SplitsIn(after, e);
      SplitsInAt(before, e, p);
      SplitsInAt(before, e, c);
      forall u
        ensures u in now <==> u in ClaimSplits(was, p, c)
        ensures u in now ==> now[u] == ClaimSplits(was, p, c)[u]
      {
        SplitsInAt(before, e, u);
        SplitsInAt(after, e, u);
        RowAfter(before, p, c, e, u);
      }
    }
  }

  /** One row of the table after the three statements. */
  lemma RowAfter(t: SplitTable, p: UserId, c: UserId, e: nat, u: UserId)
    requires p != c
    ensures var after := Rekeyed(Deleted(Added(t, p, c), p, c), p, c);
            && ((e, u) in after <==>
                  if u == p then false else if u == c then (e, p) in t || (e, c) in t else (e, u) in t)
            && ((e, u) in after ==> after[(e, u)] == Get(t, (e, u)) + if u == c then Get(t, (e, p)) else 0)
  {
    var added := Added(t, p, c);
    var deleted := Deleted(added, p, c);
    assert forall k :: k in added <==> k in t;
    assert forall k :: k in deleted <==> k in t && !(k.1 == p && (k.0, c) in t);
  }

  // ---------- the claim and the balances ----------

  function ClaimRow(e: ExpenseRow, p: UserId, c: UserId): ExpenseRow {
    e.(splits := ClaimSplits(e.splits, p, c))
  }

  function ClaimRows(es: seq<ExpenseRow>, p: UserId, c: UserId): seq<ExpenseRow> {
    seq(|es|, i requires 0 <= i < |es| => ClaimRow(es[i], p, c))
  }

  /** The posting core and the payment guards keep a placeholder from ever moving money. */
  predicate NeverActs(es: seq<ExpenseRow>, ps: seq<PaymentRow>, p: UserId) {
    (forall e :: e in es ==> e.paidBy != p) && forall q :: q in ps ==> q.fromUser != p && q.toUser != p
  }

  /** No expense total changes. */
  lemma ClaimKeepsTotal(splits: map<UserId, int>, p: UserId, c: UserId)
    requires p != c
    ensures Total(ClaimSplits(splits, p, c)) == Total(splits)
  {
    hide Total;
    if p in splits {
      var without := splits - {p};
      assert without[p := splits[p]] == splits;
      TotalInsert(without, p, splits[p]);
      TotalUpdate(without, c, Get(splits, c) + splits[p]);
    }
  }

  lemma ClaimKeepsSigns(splits: map<UserId, int>, p: UserId, c: UserId)
    requires forall u :: u in splits ==> splits[u] >= 0
    ensures forall u :: u in ClaimSplits(splits, p, c) ==> ClaimSplits(splits, p, c)[u] >= 0
  {
  }

  lemma ClaimShare(splits: map<UserId, int>, p: UserId, c: UserId, u: UserId)
    requires p != c
    ensures Get(ClaimSplits(splits, p, c), u) ==
            if u == p then 0 else if u == c then Get(splits, c) + Get(splits, p) else Get(splits, u)
  {
  }

  lemma ClaimRowOwed(e: ExpenseRow, p: UserId, c: UserId, x: UserId, y: UserId)
    requires p != c && e.paidBy != p && y != c && y != p
    ensures ExpenseOwed(ClaimRow(e, p, c), x, y)
         == if x == p then 0 else if x == c then ExpenseOwed(e, c, y) + ExpenseOwed(e, p, y) else ExpenseOwed(e, x, y)
    ensures x != p && x != c ==> ExpenseOwed(ClaimRow(e, p, c), x, c) == ExpenseOwed(e, x, c)
    ensures ExpenseOwed(ClaimRow(e, p, c), x, p) == 0 == ExpenseOwed(e, x, p)
    ensures ExpenseOwed(ClaimRow(e, p, c), p, y) == 0
  {
    hide ClaimSplits;
    ClaimShare(e.splits, p, c, x);
    ClaimShare(e.splits, p, c, p);
  }

  lemma ClaimRowNet(e: ExpenseRow, p: UserId, c: UserId, x: UserId)
    requires p != c && e.paidBy != p
    ensures ExpenseNet(ClaimRow(e, p, c), x)
         == if x == p then 0 else if x == c then ExpenseNet(e, c) + ExpenseNet(e, p) else ExpenseNet(e, x)
  {
    hide ClaimSplits, Total;
    ClaimShare(e.splits, p, c, x);
    ClaimKeepsTotal(e.splits, p, c);
  }

  lemma {:induction false} ClaimOwed(es: seq<ExpenseRow>, ps: seq<PaymentRow>, p: UserId, c: UserId, x: UserId,
                                     y: UserId)
    requires p != c && NeverActs(es, ps, p) && x != p && y != p && x != c && x != y
    ensures Signed(ClaimRows(es, p, c), ps, x, y)
         == Signed(es, ps, x, y) + if y == c then Signed(es, ps, x, p) else 0
    decreases |es|
  {
    hide ClaimRow, ExpenseOwed, PaymentOwed, SumRows;
    if es == [] {
      assert ClaimRows(es, p, c) == [];
      NoPlaceholderPayments(ps, p, x);
    } else {
      var rest, e := es[..|es| - 1], es[|es| - 1];
      assert es == rest + [e] && ClaimRows(es, p, c) == ClaimRows(rest, p, c) + [ClaimRow(e, p, c)];
      ClaimOwed(rest, ps, p, c, x, y);
      SignedExpense(rest, ps, e, x, y);
      SignedExpense(rest, ps, e, x, p);
      SignedExpense(ClaimRows(rest, p, c), ps, ClaimRow(e, p, c), x, y);
      ClaimRowOwed(e, p, c, c, x);
      ClaimRowOwed(e, p, c, x, x);
      ClaimRowOwed(e, p, c, y, x);
      if y != c { ClaimRowOwed(e, p, c, x, y); }
    }
  }

  lemma NoPlaceholderPayments(ps: seq<PaymentRow>, p: UserId, x: UserId)
    requires forall q :: q in ps ==> q.fromUser != p && q.toUser != p
    ensures Signed([], ps, x, p) == 0
  {
    SumRowsZero(ps, q => PaymentOwed(q, x, p));
    SumRowsZero(ps, q => PaymentOwed(q, p, x));
    SumRowsNone<ExpenseRow>(e => ExpenseOwed(e, x, p));
    SumRowsNone<ExpenseRow>(e => ExpenseOwed(e, p, x));
  }

  lemma {:induction false} ClaimNet(es: seq<ExpenseRow>, p: UserId, c: UserId, x: UserId)
    requires p != c && forall e :: e in es ==> e.paidBy != p
    ensures SumRows(ClaimRows(es, p, c), e => ExpenseNet(e, x))
         == if x == p then 0
            else SumRows(es, e => ExpenseNet(e, x)) + if x == c then SumRows(es, e => ExpenseNet(e, p)) else 0
    decreases |es|
  {
    hide ClaimRow, ExpenseNet, SumRows;
    if es == [] {
      assert ClaimRows(es, p, c) == [];
      SumRowsNone<ExpenseRow>(e => ExpenseNet(e, x));
      SumRowsNone<ExpenseRow>(e => ExpenseNet(e, p));
    } else {
      var rest, e := es[..|es| - 1], es[|es| - 1];
      assert es == rest + [e] && ClaimRows(es, p, c) == ClaimRows(rest, p, c) + [ClaimRow(e, p, c)];
      ClaimNet(rest, p, c, x);
      ClaimRowNet(e, p, c, x);
      SumRowsSnoc(rest, e, r => ExpenseNet(r, x));
      SumRowsSnoc(rest, e, r => ExpenseNet(r, p));
      SumRowsSnoc(ClaimRows(rest, p, c), ClaimRow(e, p, c), r => ExpenseNet(r, x));
    }
  }

  lemma ClaimRowIds(es: seq<ExpenseRow>, ps: seq<PaymentRow>, p: UserId, c: UserId)
    requires RowIds(es, ps) && Id(c)
    ensures RowIds(ClaimRows(es, p, c), ps)
  {
    hide PaymentIds;
    forall i | 0 <= i < |es|
      ensures ExpenseIds(ClaimRow(es[i], p, c))
    {
      assert es[i] in es;
    }
  }

  /**
   A claim commutes with the balance function.  Nets: the claimer's becomes the sum of the two,
   the placeholder's vanishes, nobody else's moves.
   */
  lemma ClaimCommutesWithNets(es: seq<ExpenseRow>, ps: seq<PaymentRow>, p: UserId, c: UserId, x: UserId)
    requires RowIds(es, ps) && Id(p) && Id(c) && Id(x) && p != c && NeverActs(es, ps, p)
    ensures Get(BalanceOf(ClaimRows(es, p, c), ps).net, x)
         == if x == p then 0
            else Get(BalanceOf(es, ps).net, x) + if x == c then Get(BalanceOf(es, ps).net, p) else 0
  {
    hide BalanceOf, SumRows, ExpenseNet, ExpenseIds, PaymentIds, Id;
    ClaimRowIds(es, ps, p, c);
    NetExact(es, ps, x);
    NetExact(es, ps, p);
    NetExact(ClaimRows(es, p, c), ps, x);
    ClaimNet(es, p, c, x);
    SumRowsZero(ps, q => PaymentNet(q, p));
  }

  /**
   Pairs: between others nothing changes, each other member's balance with the claimer becomes
   the signed sum of their balances with claimer and placeholder, and the placeholder has none.
   */
  lemma ClaimCommutesWithPairs(es: seq<ExpenseRow>, ps: seq<PaymentRow>, p: UserId, c: UserId, x: UserId, y: UserId,
                               n: int)
    requires RowIds(es, ps) && Id(c) && p != c && NeverActs(es, ps, p) && x != p && x != c && x != y
    ensures var pairwise := BalanceOf(ClaimRows(es, p, c), ps).pairwise;
            var due := Signed(es, ps, x, y) + if y == c then Signed(es, ps, x, p) else 0;
            && (y != p ==> (Debt(x, y, n) in pairwise <==> due == n > 0))
            && (y != p ==> (Debt(y, x, n) in pairwise <==> -due == n > 0))
            && (y == p ==> Debt(x, y, n) !in pairwise && Debt(y, x, n) !in pairwise)
  {
    hide BalanceOf, Owed, ExpenseIds, PaymentIds, Id, ClaimRow;
    var after := ClaimRows(es, p, c);
    ClaimRowIds(es, ps, p, c);
    PairOf(after, ps, x, y, n);
    PairOf(after, ps, y, x, n);
    if y == p { ClaimedOwesNothing(es, ps, p, c, x); } else { ClaimOwed(es, ps, p, c, x, y); }
  }

  lemma PairOf(es: seq<ExpenseRow>, ps: seq<PaymentRow>, x: UserId, y: UserId, n: int)
    requires RowIds(es, ps)
    ensures Debt(x, y, n) in BalanceOf(es, ps).pairwise <==> x != y && Signed(es, ps, x, y) == n > 0
  {
    hide Collect, Signed, RowIds, Ledger;
    PairwiseExact(es, ps, x, y, n);
  }

  lemma {:induction false} ClaimedOwesNothing(es: seq<ExpenseRow>, ps: seq<PaymentRow>, p: UserId, c: UserId, x: UserId)
    requires p != c && NeverActs(es, ps, p) && x != p && x != c
    ensures Signed(ClaimRows(es, p, c), ps, x, p) == 0
    decreases |es|
  {
    hide ClaimRow, ExpenseOwed, PaymentOwed, SumRows;
    if es == [] {
      assert ClaimRows(es, p, c) == [];
      NoPlaceholderPayments(ps, p, x);
    } else {
      var rest, e := es[..|es| - 1], es[|es| - 1];
      assert es == rest + [e] && ClaimRows(es, p, c) == ClaimRows(rest, p, c) + [ClaimRow(e, p, c)];
      ClaimedOwesNothing(rest, ps, p, c, x);
      SignedExpense(ClaimRows(rest, p, c), ps, ClaimRow(e, p, c), x, p);
      ClaimRowOwed(e, p, c, p, x);
      ClaimRowOwed(e, p, c, x, x);
    }
  }
}
