/**
 Expenses as the ledger service writes and reads them (createExpense, editExpense and getBalances
 in apps/api/src/ledger/ledger.service.ts, insertExpense in packages/ledger/src/posting.ts), one
 transaction at a time.
 */
module Expenses {
  import opened Text
  import opened Sums
  import opened Splits
  import opened Posting
  import opened Balances
  import opened BalanceLaws

  datatype Expense = Expense(
    description: string, amountCents: int, currency: string, paidBy: UserId, category: Option<string>, isStaple: bool)

  datatype ExpenseInput = ExpenseInput(
    description: string, currency: Option<string>, category: Option<string>, isStaple: Option<bool>,
      posting: ResolveInput)

  /** `previous` of a revision: the whole expense, fields and splits. */
  datatype Snapshot = Snapshot(expense: Expense, splits: map<UserId, int>)

  datatype Refusal = OtherCurrency | NotFound | NotPostable(error: PostingError)

  type Books = map<nat, Snapshot>

  /** The splits of every expense are non-negative and sum to its amount. */
  ghost predicate Balanced(books: Books) {
    forall id :: id in books ==> Whole(books[id])
  }

  ghost predicate Whole(s: Snapshot) {
    Total(s.splits) == s.expense.amountCents && forall u :: u in s.splits ==> s.splits[u] >= 0
  }

  lemma PostedIsWhole(members: seq<ActiveMember>, rooms: map<RoomId, int>, expense: Expense, input: ResolveInput)
    requires Accepted(members, rooms, input) && expense.amountCents == input.amountCents
    ensures Whole(Snapshot(expense, SplitOf(SplitRequest(members, rooms, input))))
  {
    hide SplitOf, Total, Floors, Remainder, RemainderRecipient, WeightsOf, MayPost, Roomed;
    var split := SplitRequest(members, rooms, input);
    SplitSumsToTotal(split);
    forall u | u in SplitOf(split) { SharesNearFloor(split, u); }
  }

  class ExpenseStore {
    /** The house's currency. */
    const currency: string
    /** `expenses` and `expense_splits` together, by expense id. */
    var books: Books
    var revisions: seq<(nat, Snapshot)>

    constructor (currency: string)
      ensures this.currency == currency && books == map[] && revisions == []
    {
      this.currency, books, revisions := currency, map[], [];
    }

    /** One currency per house; otherwise whatever resolveSplits accepts is written whole. */
    method CreateExpense(id: nat, input: ExpenseInput, members: seq<ActiveMember>, rooms: map<RoomId, int>)
        returns (r: Result<Snapshot, Refusal>)
      requires id !in books && WellHoused(members, rooms) && Balanced(books)
      modifies this`books
      ensures Balanced(books)
      ensures r.Success? <==>
                (input.currency.Some? ==> input.currency.value in {"", currency})
                  && Accepted(members, rooms, input.posting)
      ensures r.Success? ==>
                && books == old(books)[id := r.value]
                && r.value.splits == SplitOf(SplitRequest(members, rooms, input.posting))
                && r.value.expense == Expense(input.description, input.posting.amountCents,
                                              input.currency.GetOr(currency), input.posting.paidBy,
                                              input.category, input.isStaple.GetOr(false))
      ensures r.Failure? ==> books == old(books)
    {
      hide Whole, Accepted, SplitOf, WellHoused;
      if input.currency.Some? && input.currency.value != "" && input.currency.value != currency {
        return Failure(OtherCurrency);
      }
      var splits := ResolveSplits(members, rooms, input.posting);
      if splits.Failure? { return Failure(NotPostable(splits.error)); }
      var expense := Expense(input.description, input.posting.amountCents, input.currency.GetOr(currency),
                             input.posting.paidBy, input.category, input.isStaple.GetOr(false));
      PostedIsWhole(members, rooms, expense, input.posting);
      books := books[id := Snapshot(expense, splits.value)];
      return Success(books[id]);
    }

    /**
     The editor is an active member.  The head is replaced only together with a revision that
     holds all of the previous state; a refusal leaves neither.
     */
    method EditExpense(id: nat, editor: UserId, input: ExpenseInput, members: seq<ActiveMember>,
                       rooms: map<RoomId, int>)
        returns (r: Result<Snapshot, Refusal>)
      requires WellHoused(members, rooms) && Balanced(books)
      modifies this`books, this`revisions
      ensures Balanced(books)
      ensures r.Success? <==>
                id in old(books) && Active(members, editor) && Accepted(members, rooms, input.posting)
      ensures r.Success? ==>
                revisions == old(revisions) + [(id, old(books)[id])]
                && books == old(books)[id := r.value]
                && r.value.splits == SplitOf(SplitRequest(members, rooms, input.posting))
                && r.value.expense == Expense(input.description, input.posting.amountCents,
                                              old(books)[id].expense.currency, input.posting.paidBy,
                                              input.category, input.isStaple.GetOr(false))
      ensures r.Failure? ==> books == old(books) && revisions == old(revisions)
    {
      hide Whole, Accepted, SplitOf, WellHoused;
      IdIn(members, editor);
      if id !in books || editor !in Ids(members) { return Failure(NotFound); }
      var previous := books[id];
      var splits := ResolveSplits(members, rooms, input.posting);
      if splits.Failure? { return Failure(NotPostable(splits.error)); }
      var updated := previous.expense.(description := input.description, amountCents := input.posting.amountCents,
                                       paidBy := input.posting.paidBy, category := input.category,
                                       isStaple := input.isStaple.GetOr(false));
      PostedIsWhole(members, rooms, updated, input.posting);
      revisions := revisions + [(id, previous)];
      books := books[id := Snapshot(updated, splits.value)];
      return Success(books[id]);
    }
  }

  // ---------- reading the balances ----------

  /** A row of `expenses` joined with `expense_splits`. */
  datatype JoinRow = JoinRow(id: nat, paidBy: UserId, splitUserId: UserId, splitCents: int)

  /** The rows are those of the join, in any order. */
  ghost predicate Joined(rows: seq<JoinRow>, books: Books) {
    && (forall i :: 0 <= i < |rows| ==> InJoin(rows[i], books))
    && (forall id, u :: id in books && u in books[id].splits ==>
          exists i :: 0 <= i < |rows| && rows[i].id == id && rows[i].splitUserId == u)
  }

  predicate InJoin(row: JoinRow, books: Books) {
    row.id in books && row.paidBy == books[row.id].expense.paidBy
    && row.splitUserId in books[row.id].splits && row.splitCents == books[row.id].splits[row.splitUserId]
  }

  function Seen(rows: seq<JoinRow>, id: nat): set<UserId> {
    set r | r in rows && r.id == id :: r.splitUserId
  }

  /** The entry of an expense of which some split rows have been read. */
  function RowSoFar(book: Snapshot, seen: set<UserId>): ExpenseRow
    requires seen <= book.splits.Keys
  {
    ExpenseRow(book.expense.paidBy, map u | u in seen :: book.splits[u])
  }

  /** The Map of getBalances after some of the rows. */
  ghost predicate Grouped(byExpense: map<nat, ExpenseRow>, rows: seq<JoinRow>, books: Books) {
    forall id :: if id in byExpense
                 then id in books && Seen(rows, id) != {} && Seen(rows, id) <= books[id].splits.Keys
                      && byExpense[id] == RowSoFar(books[id], Seen(rows, id))
                 else Seen(rows, id) == {}
  }

  lemma GroupStep(byExpense: map<nat, ExpenseRow>, rows: seq<JoinRow>, row: JoinRow, books: Books)
    requires Grouped(byExpense, rows, books) && InJoin(row, books)
    ensures var entry := if row.id in byExpense then byExpense[row.id] else ExpenseRow(row.paidBy, map[]);
            Grouped(byExpense[row.id := entry.(splits := entry.splits[row.splitUserId := row.splitCents])],
              rows + [row], books)
  {
    hide Seen;
    forall id { SeenSnoc(rows, row, id); }
  }

  lemma SeenSnoc(rows: seq<JoinRow>, row: JoinRow, id: nat)
    ensures Seen(rows + [row], id) == if row.id == id then Seen(rows, id) + {row.splitUserId} else Seen(rows, id)
  {
    forall u
      ensures u in Seen(rows + [row], id) <==>
              u in if row.id == id then Seen(rows, id) + {row.splitUserId} else Seen(rows, id)
    {
      assert row in rows + [row];
      assert forall r :: r in rows + [row] <==> r in rows || r == row;
    }
  }

  /** Every expense with a split, as the balance function takes it. */
  function LedgerRows(books: Books): map<nat, ExpenseRow> {
    map id | id in books && books[id].splits != map[] :: ExpenseRow(books[id].expense.paidBy, books[id].splits)
  }

  lemma AllGrouped(byExpense: map<nat, ExpenseRow>, rows: seq<JoinRow>, books: Books)
    requires Grouped(byExpense, rows, books) && Joined(rows, books)
    ensures byExpense == LedgerRows(books)
  {
    hide Grouped, Joined;
    forall id
      ensures id in byExpense <==> id in LedgerRows(books)
      ensures id in byExpense ==> byExpense[id] == LedgerRows(books)[id]
    {
      GroupedAt(byExpense, rows, books, id);
    }
  }

  lemma GroupedAt(byExpense: map<nat, ExpenseRow>, rows: seq<JoinRow>, books: Books, id: nat)
    requires Grouped(byExpense, rows, books) && Joined(rows, books)
    ensures id in byExpense <==> id in books && books[id].splits != map[]
    ensures id in byExpense ==> byExpense[id] == ExpenseRow(books[id].expense.paidBy, books[id].splits)
  {
    hide Seen, Joined;
    assert if id in byExpense
           then id in books && Seen(rows, id) != {}
                && byExpense[id] == RowSoFar(books[id], Seen(rows, id))
           else Seen(rows, id) == {};
    if id in books {
      SeenAll(rows, books, id);
      assert books[id].splits == map u | u in Seen(rows, id) :: books[id].splits[u];
      assert books[id].splits == map[] <==> books[id].splits.Keys == {};
    }
  }

  lemma SeenAll(rows: seq<JoinRow>, books: Books, id: nat)
    requires Joined(rows, books) && id in books
    ensures Seen(rows, id) == books[id].splits.Keys
  {
    forall u | u in books[id].splits
      ensures u in Seen(rows, id)
    {
      var i :| 0 <= i < |rows| && rows[i].id == id && rows[i].splitUserId == u;
      assert rows[i] in rows;
    }
  }

  method GroupRows(rows: seq<JoinRow>, ghost books: Books) returns (byExpense: map<nat, ExpenseRow>)
    requires Joined(rows, books)
    ensures byExpense == LedgerRows(books)
  {
    hide Grouped, InJoin, LedgerRows;
    byExpense := map[];
    NothingGrouped(books);
    for i := 0 to |rows|
      invariant Grouped(byExpense, rows[..i], books)
    {
      var row := rows[i];
      var entry := if row.id in byExpense then byExpense[row.id] else ExpenseRow(row.paidBy, map[]);
      GroupStep(byExpense, rows[..i], row, books);
      assert rows[..i + 1] == rows[..i] + [row];
      byExpense := byExpense[row.id := entry.(splits := entry.splits[row.splitUserId := row.splitCents])];
    }
    assert rows[..|rows|] == rows;
    AllGrouped(byExpense, rows, books);
  }

  lemma NothingGrouped(books: Books)
    ensures Grouped(map[], [], books)
  {
  }

  /** A listing of the Map's values. */
  ghost predicate Lists(es: seq<ExpenseRow>, table: map<nat, ExpenseRow>) {
    exists ids: seq<nat> :: ListsBy(es, table, ids)
  }

  predicate ListsBy(es: seq<ExpenseRow>, table: map<nat, ExpenseRow>, ids: seq<nat>) {
    Distinct(ids) && SetOf(ids) == table.Keys && |es| == |ids|
      && forall i :: 0 <= i < |ids| ==> ids[i] in table && es[i] == table[ids[i]]
  }

  /** All listings hold the same rows. */
  lemma {:induction false} ListingsPermute(es: seq<ExpenseRow>, fs: seq<ExpenseRow>, table: map<nat, ExpenseRow>,
                                           a: seq<nat>, b: seq<nat>)
    requires ListsBy(es, table, a) && ListsBy(fs, table, b)
    ensures multiset(es) == multiset(fs)
    decreases |table|
  {
    hide SetOf, Distinct;
    DistinctSize(a);
    DistinctSize(b);
    if a == [] {
      assert es == [] && fs == [];
    } else {
      var n := |a| - 1;
      var id := a[n];
      var j := PlaceOf(fs, table, b, id);
      DropOne(es, table, a, n);
      DropOne(fs, table, b, j);
      ListingsPermute(Without(es, n), Without(fs, j), table - {id}, Without(a, n), Without(b, j));
      MultisetWithout(es, n);
      MultisetWithout(fs, j);
    }
  }

  function Without<T>(s: seq<T>, i: nat): seq<T>
    requires i < |s|
  {
    s[..i] + s[i + 1..]
  }

  lemma MultisetWithout<T>(s: seq<T>, i: nat)
    requires i < |s|
    ensures multiset(s) == multiset(Without(s, i)) + multiset{s[i]}
  {
    assert s == s[..i] + [s[i]] + s[i + 1..];
  }

  lemma PlaceOf(fs: seq<ExpenseRow>, table: map<nat, ExpenseRow>, b: seq<nat>, id: nat) returns (j: nat)
    requires ListsBy(fs, table, b) && id in table
    ensures j < |b| && b[j] == id
  {
    assert id in SetOf(b);
    j :| 0 <= j < |b| && b[j] == id;
  }

  lemma DropOne(es: seq<ExpenseRow>, table: map<nat, ExpenseRow>, a: seq<nat>, i: nat)
    requires ListsBy(es, table, a) && i < |a|
    ensures ListsBy(Without(es, i), table - {a[i]}, Without(a, i)) && |table - {a[i]}| < |table|
  {
    hide SetOf, Distinct;
    var rest := Without(a, i);
    DropKey(a, i);
    assert (table - {a[i]}).Keys == table.Keys - {a[i]};
    forall k | 0 <= k < |rest|
      ensures rest[k] in table - {a[i]} && Without(es, i)[k] == (table - {a[i]})[rest[k]]
    {
      assert rest[k] == a[if k < i then k else k + 1] && Without(es, i)[k] == es[if k < i then k else k + 1];
      assert rest[k] != a[i];
    }
  }

  lemma DropKey(a: seq<nat>, i: nat)
    requires Distinct(a) && i < |a|
    ensures var rest := Without(a, i);
            Distinct(rest) && SetOf(rest) == SetOf(a) - {a[i]} && forall k :: 0 <= k < |rest| ==> rest[k] != a[i]
  {
    var rest := Without(a, i);
    assert forall k :: 0 <= k < |rest| ==> rest[k] == a[if k < i then k else k + 1];
    forall x | x in SetOf(a) && x != a[i]
      ensures x in SetOf(rest)
    {
      var k :| 0 <= k < |a| && a[k] == x;
      assert rest[if k < i then k else k - 1] == x;
    }
  }

  /** getBalances: whatever order the join rows and the Map's values come in, the result is one. */
  method GetBalances(rows: seq<JoinRow>, payments: seq<PaymentRow>, ghost books: Books) returns (r: Balance)
    requires Joined(rows, books)
    requires forall id :: id in books ==> ExpenseIds(ExpenseRow(books[id].expense.paidBy, books[id].splits))
    requires forall p :: p in payments ==> PaymentIds(p)
    ensures forall es :: Lists(es, LedgerRows(books)) ==> r == BalanceOf(es, payments)
  {
    hide Joined, ListsBy, ExpenseIds, PaymentIds, Collect, Ledger;
    var byExpense := GroupRows(rows, books);
    var values := ValuesOf(byExpense);
    ghost var ids: seq<nat> :| ListsBy(values, byExpense, ids);
    assert forall e :: e in values ==> ExpenseIds(e) by { ValueIds(values, byExpense, ids, books); }
    r := ComputeBalances(values, payments);
    forall es | Lists(es, LedgerRows(books))
      ensures r == BalanceOf(es, payments)
    {
      var other: seq<nat> :| ListsBy(es, LedgerRows(books), other);
      ListingsPermute(values, es, byExpense, ids, other);
      RowOrderIrrelevant(values, payments, es, payments);
    }
  }

  lemma ValueIds(values: seq<ExpenseRow>, byExpense: map<nat, ExpenseRow>, ids: seq<nat>, books: Books)
    requires ListsBy(values, byExpense, ids) && byExpense == LedgerRows(books)
    requires forall id :: id in books ==> ExpenseIds(ExpenseRow(books[id].expense.paidBy, books[id].splits))
    ensures forall e :: e in values ==> ExpenseIds(e)
  {
    hide ExpenseIds;
  }

  /** `[...byExpense.values()]` */
  method ValuesOf(byExpense: map<nat, ExpenseRow>) returns (values: seq<ExpenseRow>)
    ensures Lists(values, byExpense)
  {
    var todo := byExpense.Keys;
    values := [];
    ghost var ids: seq<nat> := [];
    while todo != {}
      invariant todo <= byExpense.Keys && Distinct(ids) && SetOf(ids) == byExpense.Keys - todo
      invariant |values| == |ids|
                && forall i :: 0 <= i < |ids| ==> ids[i] in byExpense && values[i] == byExpense[ids[i]]
      decreases todo
    {
      var id :| id in todo;
      assert id !in SetOf(ids) && SetOf(ids + [id]) == SetOf(ids) + {id};
      values, ids := values + [byExpense[id]], ids + [id];
      todo := todo - {id};
    }
    assert ListsBy(values, byExpense, ids);
  }
}
