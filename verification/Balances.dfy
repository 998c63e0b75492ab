/**
 The single balance function (packages/domain/src/money/balances.ts): who owes whom, computed
 from expense splits and counted payments.
 */
module Balances {
  import opened Text
  import opened Sums
  import opened Splits

  datatype ExpenseRow = ExpenseRow(paidBy: UserId, splits: map<UserId, int>)

  datatype Status = Recorded | Disputed | Resolved

  datatype PaymentRow = PaymentRow(fromUser: UserId, toUser: UserId, amountCents: int, status: Status)

  datatype Debt = Debt(from: UserId, to: UserId, amountCents: int)

  datatype Balance = Balance(net: map<UserId, int>, pairwise: seq<Debt>)

  /** User ids are UUID text. */
  predicate Id(u: UserId) {
    |u| == 36 && '|' !in u
  }

  predicate ExpenseIds(e: ExpenseRow) {
    Id(e.paidBy) && forall u :: u in e.splits ==> Id(u)
  }

  predicate PaymentIds(p: PaymentRow) {
    Id(p.fromUser) && Id(p.toUser)
  }

  predicate RowIds(expenses: seq<ExpenseRow>, payments: seq<PaymentRow>) {
    (forall e :: e in expenses ==> ExpenseIds(e)) && (forall p :: p in payments ==> PaymentIds(p))
  }

  function Get<K>(m: map<K, int>, k: K): int {
    if k in m then m[k] else 0
  }

  // ---------- the simple definition ----------

  /** The sum of `f` over rows. */
  function SumRows<T>(rows: seq<T>, f: T -> int): int {
    if rows == [] then 0 else SumRows(rows[..|rows| - 1], f) + f(rows[|rows| - 1])
  }

  /** What `x` owes `y` from one expense: x's share, if y paid it. */
  function ExpenseOwed(e: ExpenseRow, x: UserId, y: UserId): int {
    if e.paidBy == y && x != y then Get(e.splits, x) else 0
  }

  /** What `x` owes `y` from one payment: what y sent x, unless disputed. */
  function PaymentOwed(p: PaymentRow, x: UserId, y: UserId): int {
    if p.status != Disputed && p.toUser == x && p.fromUser == y && x != y then p.amountCents else 0
  }

  function Owed(expenses: seq<ExpenseRow>, payments: seq<PaymentRow>, x: UserId, y: UserId): int {
    SumRows(expenses, e => ExpenseOwed(e, x, y)) + SumRows(payments, p => PaymentOwed(p, x, y))
  }

  /** What `x` owes `y`, netted against what `y` owes `x`. */
  function Signed(expenses: seq<ExpenseRow>, payments: seq<PaymentRow>, x: UserId, y: UserId): int {
    Owed(expenses, payments, x, y) - Owed(expenses, payments, y, x)
  }

  /** One expense's effect on a net: paid for others, less own share of what another paid. */
  ghost function ExpenseNet(e: ExpenseRow, x: UserId): int {
    if e.paidBy == x then Total(e.splits) - Get(e.splits, x) else -Get(e.splits, x)
  }

  /** One payment's effect on a net: sent less received, unless disputed. */
  function PaymentNet(p: PaymentRow, x: UserId): int {
    if p.status == Disputed || p.fromUser == p.toUser then 0
    else if p.fromUser == x then p.amountCents
    else if p.toUser == x then -p.amountCents
    else 0
  }

  ghost function NetOf(expenses: seq<ExpenseRow>, payments: seq<PaymentRow>, x: UserId): int {
    SumRows(expenses, e => ExpenseNet(e, x)) + SumRows(payments, p => PaymentNet(p, x))
  }

  lemma SumRowsSnoc<T>(rows: seq<T>, row: T, f: T -> int)
    ensures SumRows(rows + [row], f) == SumRows(rows, f) + f(row)
  {
    assert (rows + [row])[..|rows|] == rows;
  }

  lemma SumRowsNone<T>(f: T -> int)
    ensures SumRows([], f) == 0
  {
  }

  lemma SignedExpense(expenses: seq<ExpenseRow>, payments: seq<PaymentRow>, e: ExpenseRow, x: UserId, y: UserId)
    ensures Signed(expenses + [e], payments, x, y)
         == Signed(expenses, payments, x, y) + ExpenseOwed(e, x, y) - ExpenseOwed(e, y, x)
  {
    hide SumRows;
    SumRowsSnoc(expenses, e, r => ExpenseOwed(r, x, y));
    SumRowsSnoc(expenses, e, r => ExpenseOwed(r, y, x));
  }

  lemma SignedPayment(expenses: seq<ExpenseRow>, payments: seq<PaymentRow>, p: PaymentRow, x: UserId, y: UserId)
    ensures Signed(expenses, payments + [p], x, y)
         == Signed(expenses, payments, x, y) + PaymentOwed(p, x, y) - PaymentOwed(p, y, x)
  {
    hide SumRows;
    SumRowsSnoc(payments, p, r => PaymentOwed(r, x, y));
    SumRowsSnoc(payments, p, r => PaymentOwed(r, y, x));
  }

  // ---------- pair keys ----------

  function Key(a: UserId, b: UserId): string {
    a + "|" + b
  }

  /** The text before the first '|'. */
  function UpToBar(s: string): (r: string)
    ensures |r| <= |s|
  {
    if s == [] || s[0] == '|' then [] else [s[0]] + UpToBar(s[1..])
  }

  /** The first two components of `key.split('|')`. */
  function Parts(key: string): (UserId, UserId) {
    var a := UpToBar(key);
    if |a| == |key| then (a, "") else (a, UpToBar(key[|a| + 1..]))
  }

  lemma {:induction false} UpToBarStops(a: string, rest: string)
    requires '|' !in a && (rest == [] || rest[0] == '|')
    ensures UpToBar(a + rest) == a
  {
    if a == [] {
      assert a + rest == rest;
    } else {
      UpToBarStops(a[1..], rest);
      assert (a + rest)[1..] == a[1..] + rest && a == [a[0]] + a[1..];
    }
  }

  /** Ids without a bar come back out of their key. */
  lemma PartsOfKey(a: UserId, b: UserId)
    requires Id(a) && Id(b)
    ensures Parts(Key(a, b)) == (a, b) && |Key(a, b)| == 73
  {
    UpToBarStops(a, "|" + b);
    UpToBarStops(b, "");
    assert b + "" == b && Key(a, b) == a + ("|" + b) && Key(a, b)[37..] == b;
  }

  /** The entry order of `[...pair.entries()].sort()` compares "key,value" text; it is the order of keys. */
  lemma EntryOrderIsKeyOrder(k: string, v: string, l: string, w: string)
    requires |k| == |l| && k != l
    ensures Less(k + "," + v, l + "," + w) <==> Less(k, l)
  {
    LessConcat(k, "," + v, l, "," + w);
    assert k + "," + v == k + ("," + v) && l + "," + w == l + ("," + w);
  }

  predicate PairKey(key: string) {
    var (a, b) := Parts(key);
    Id(a) && Id(b) && Less(a, b) && key == Key(a, b)
  }

  /** The Map's value: what the greater id owes the smaller. */
  function KeyValue(expenses: seq<ExpenseRow>, payments: seq<PaymentRow>, key: string): int {
    Signed(expenses, payments, Parts(key).1, Parts(key).0)
  }

  function AddDebt(pair: map<string, int>, debtor: UserId, creditor: UserId, cents: int): map<string, int> {
    if debtor == creditor || cents == 0 then pair
    else
      var (a, b) := if Less(debtor, creditor) then (debtor, creditor) else (creditor, debtor);
      var signed := if debtor == b then cents else -cents;
      pair[Key(a, b) := Get(pair, Key(a, b)) + signed]
  }

  /** The Map holds, for every pair of ids, what the rows so far make the greater owe the smaller. */
  ghost predicate Represents(pair: map<string, int>, expenses: seq<ExpenseRow>, payments: seq<PaymentRow>) {
    (forall key :: key in pair ==> PairKey(key))
    && forall key :: PairKey(key) ==> Get(pair, key) == KeyValue(expenses, payments, key)
  }

  /** The effect of one debt on one key. */
  function DebtAt(key: string, debtor: UserId, creditor: UserId, cents: int): int {
    if debtor == creditor then 0
    else if Parts(key) == (creditor, debtor) then cents
    else if Parts(key) == (debtor, creditor) then -cents
    else 0
  }

  lemma AddDebtAt(pair: map<string, int>, debtor: UserId, creditor: UserId, cents: int)
    requires Id(debtor) && Id(creditor) && forall key :: key in pair ==> PairKey(key)
    ensures var after := AddDebt(pair, debtor, creditor, cents);
            && (forall key :: key in after ==> PairKey(key))
            && forall key :: PairKey(key) ==> Get(after, key) == Get(pair, key) + DebtAt(key, debtor, creditor, cents)
  {
    hide Less, Key, Parts;
    LessTotal(debtor, creditor);
    PartsOfKey(debtor, creditor);
    PartsOfKey(creditor, debtor);
    if Less(debtor, creditor) { LessAsymmetric(debtor, creditor); }
    forall key | PairKey(key)
      ensures Get(AddDebt(pair, debtor, creditor, cents), key) == Get(pair, key) + DebtAt(key, debtor, creditor, cents)
    {
      LessIrreflexive(Parts(key).0);
    }
  }

  // ---------- computeBalances ----------

  /** The rows of one expense entered so far. */
  function Entered(e: ExpenseRow, done: set<UserId>): ExpenseRow {
    ExpenseRow(e.paidBy, map u | u in done && u in e.splits :: e.splits[u])
  }

  lemma EnterShare(pair: map<string, int>, expenses: seq<ExpenseRow>, e: ExpenseRow, done: set<UserId>, u: UserId)
    requires ExpenseIds(e) && u in e.splits && u !in done && Represents(pair, expenses + [Entered(e, done)], [])
    ensures Represents(AddDebt(pair, u, e.paidBy, e.splits[u]), expenses + [Entered(e, done + {u})], [])
  {
    hide Less, Key, Parts, Signed, PairKey, AddDebt;
    var after := AddDebt(pair, u, e.paidBy, e.splits[u]);
    AddDebtAt(pair, u, e.paidBy, e.splits[u]);
    forall key | PairKey(key)
      ensures Get(after, key) == KeyValue(expenses + [Entered(e, done + {u})], [], key)
    {
      var (a, b) := Parts(key);
      PartsDiffer(key);
      SignedExpense(expenses, [], Entered(e, done), b, a);
      SignedExpense(expenses, [], Entered(e, done + {u}), b, a);
    }
  }

  lemma PartsDiffer(key: string)
    requires PairKey(key)
    ensures Parts(key).0 != Parts(key).1 && Less(Parts(key).0, Parts(key).1)
    ensures Id(Parts(key).0) && Id(Parts(key).1) && key == Key(Parts(key).0, Parts(key).1)
  {
    LessIrreflexive(Parts(key).0);
  }

  lemma EnterPayment(pair: map<string, int>, expenses: seq<ExpenseRow>, payments: seq<PaymentRow>, p: PaymentRow)
    requires PaymentIds(p) && Represents(pair, expenses, payments)
    ensures var after := if p.status == Disputed then pair else AddDebt(pair, p.toUser, p.fromUser, p.amountCents);
            Represents(after, expenses, payments + [p])
  {
    hide Less, Key, Parts, Signed, PairKey, AddDebt;
    AddDebtAt(pair, p.toUser, p.fromUser, p.amountCents);
    forall key | PairKey(key)
      ensures KeyValue(expenses, payments + [p], key)
           == KeyValue(expenses, payments, key) + if p.status == Disputed then 0
             else DebtAt(key, p.toUser, p.fromUser, p.amountCents)
    {
      var (a, b) := Parts(key);
      PartsDiffer(key);
      SignedPayment(expenses, payments, p, b, a);
    }
  }

  /** The `pair` Map after all rows. */
  method EnterRows(expenses: seq<ExpenseRow>, payments: seq<PaymentRow>) returns (pair: map<string, int>)
    requires RowIds(expenses, payments)
    ensures Represents(pair, expenses, payments)
  {
    hide Represents, AddDebt, ExpenseIds, PaymentIds;
    pair := map[];
    NothingEntered();
    for i := 0 to |expenses|
      invariant Represents(pair, expenses[..i], [])
    {
      var e := expenses[i];
      assert e in expenses;
      pair := EnterExpense(pair, expenses[..i], e);
      assert expenses[..i + 1] == expenses[..i] + [e];
    }
    assert expenses[..|expenses|] == expenses && payments[..0] == [];
    for i := 0 to |payments|
      invariant Represents(pair, expenses, payments[..i])
    {
      var p := payments[i];
      assert p in payments;
      EnterPayment(pair, expenses, payments[..i], p);
      assert payments[..i + 1] == payments[..i] + [p];
      if p.status == Disputed { continue; }
      pair := AddDebt(pair, p.toUser, p.fromUser, p.amountCents);
    }
    assert payments[..|payments|] == payments;
  }

  method EnterExpense(pair: map<string, int>, ghost before: seq<ExpenseRow>, e: ExpenseRow)
      returns (after: map<string, int>)
    requires ExpenseIds(e) && Represents(pair, before, [])
    ensures Represents(after, before + [e], [])
  {
    hide Represents, AddDebt, ExpenseIds;
    after := pair;
    ghost var done: set<UserId> := {};
    var todo := e.splits.Keys;
    NoSharesYet(pair, before, e);
    while todo != {}
      invariant done == e.splits.Keys - todo && todo <= e.splits.Keys
      invariant Represents(after, before + [Entered(e, done)], [])
      decreases todo
    {
      var u :| u in todo;
      EnterShare(after, before, e, done, u);
      after := AddDebt(after, u, e.paidBy, e.splits[u]);
      todo := todo - {u};
      done := done + {u};
      assert done == e.splits.Keys - todo;
    }
    assert Entered(e, done) == e by { assert Entered(e, e.splits.Keys).splits == e.splits; }
  }

  lemma NothingEntered()
    ensures Represents(map[], [], [])
  {
  }

  lemma NoSharesYet(pair: map<string, int>, before: seq<ExpenseRow>, e: ExpenseRow)
    requires Represents(pair, before, [])
    ensures Represents(pair, before + [Entered(e, {})], [])
  {
    hide PairKey, Signed, Parts;
    forall key | PairKey(key)
      ensures KeyValue(before + [Entered(e, {})], [], key) == KeyValue(before, [], key)
    {
      SignedExpense(before, [], Entered(e, {}), Parts(key).1, Parts(key).0);
    }
  }

  // ---------- reading the pairs out ----------

  predicate IsLeast(keys: set<string>, key: string) {
    key in keys && forall k :: k in keys ==> k == key || Less(key, k)
  }

  lemma {:induction false} LeastExists(keys: set<string>)
    requires keys != {}
    ensures exists key :: IsLeast(keys, key)
    decreases |keys|
  {
    var x :| x in keys;
    var rest := keys - {x};
    assert keys == rest + {x};
    if rest == {} {
      assert IsLeast(keys, x);
    } else {
      LeastExists(rest);
      var y :| IsLeast(rest, y);
      LessTotal(x, y);
      if Less(y, x) {
        assert IsLeast(keys, y);
      } else {
        forall k | k in keys
          ensures k == x || Less(x, k)
        {
          if k != x && k != y { LessTransitive(x, y, k); }
        }
        assert IsLeast(keys, x);
      }
    }
  }

  lemma LeastUnique(keys: set<string>, x: string, y: string)
    requires IsLeast(keys, x) && IsLeast(keys, y)
    ensures x == y
  {
    if x != y { LessAsymmetric(x, y); }
  }

  ghost function Least(keys: set<string>): (key: string)
    requires keys != {}
    ensures IsLeast(keys, key)
  {
    LeastExists(keys);
    var key :| IsLeast(keys, key);
    key
  }

  /** One entry of the Map as a debt of positive amount. */
  function DebtOf(key: string, value: int): Debt {
    var (a, b) := Parts(key);
    if value > 0 then Debt(b, a, value) else Debt(a, b, -value)
  }

  function Apply(net: map<UserId, int>, d: Debt): map<UserId, int> {
    var paid := net[d.from := Get(net, d.from) - d.amountCents];
    paid[d.to := Get(paid, d.to) + d.amountCents]
  }

  /** Reading out the remaining keys, least first, onto what was read before. */
  ghost function CollectFrom(pair: map<string, int>, todo: set<string>, sofar: Balance): Balance
    requires todo <= pair.Keys
    decreases |todo|
  {
    if todo == {} then sofar
    else
      var key := Least(todo);
      if pair[key] == 0 then CollectFrom(pair, todo - {key}, sofar)
      else
        var d := DebtOf(key, pair[key]);
        CollectFrom(pair, todo - {key}, Balance(Apply(sofar.net, d), sofar.pairwise + [d]))
  }

  ghost function Collect(pair: map<string, int>): Balance {
    CollectFrom(pair, pair.Keys, Balance(map[], []))
  }

  method ReadOut(pair: map<string, int>) returns (r: Balance)
    ensures r == Collect(pair)
  {
    hide IsLeast, Parts, Apply;
    var net: map<UserId, int> := map[];
    var pairwise: seq<Debt> := [];
    var todo := pair.Keys;
    while todo != {}
      invariant todo <= pair.Keys
      invariant CollectFrom(pair, todo, Balance(net, pairwise)) == Collect(pair)
      decreases todo
    {
      LeastExists(todo);
      var key :| IsLeast(todo, key);
      LeastUnique(todo, key, Least(todo));
      LeastIn(todo, key);
      todo := todo - {key};
      var value := pair[key];
      if value == 0 { continue; }
      var d := DebtOf(key, value);
      pairwise := pairwise + [d];
      net := Apply(net, d);
    }
    return Balance(net, pairwise);
  }

  lemma LeastIn(keys: set<string>, key: string)
    requires IsLeast(keys, key)
    ensures key in keys
  {
  }

  // ---------- what the result depends on ----------

  function UsersOf(expenses: seq<ExpenseRow>, payments: seq<PaymentRow>): set<UserId> {
    (set e | e in expenses :: e.paidBy) + (set e, u | e in expenses && u in e.splits :: u)
    + (set p | p in payments :: p.fromUser) + (set p | p in payments :: p.toUser)
  }

  function KeysOver(users: set<UserId>): set<string> {
    set a, b | a in users && b in users && Less(a, b) :: Key(a, b)
  }

  /** The non-zero pairs of the rows. */
  function Ledger(expenses: seq<ExpenseRow>, payments: seq<PaymentRow>): map<string, int> {
    map key | key in KeysOver(UsersOf(expenses, payments)) && KeyValue(expenses, payments, key) != 0 ::
      KeyValue(expenses, payments, key)
  }

  lemma {:induction false} SumRowsZero<T>(rows: seq<T>, f: T -> int)
    requires forall row :: row in rows ==> f(row) == 0
    ensures SumRows(rows, f) == 0
  {
    if rows != [] { SumRowsZero(rows[..|rows| - 1], f); }
  }

  /** Users who appear in no row owe and are owed nothing. */
  lemma StrangerOwesNothing(expenses: seq<ExpenseRow>, payments: seq<PaymentRow>, x: UserId, y: UserId)
    requires x !in UsersOf(expenses, payments) || y !in UsersOf(expenses, payments)
    ensures Owed(expenses, payments, x, y) == 0
  {
    SumRowsZero(expenses, e => ExpenseOwed(e, x, y));
    SumRowsZero(payments, p => PaymentOwed(p, x, y));
  }

  /** The keys of the ledger are exactly the pairs with a non-zero balance. */
  lemma LedgerExact(expenses: seq<ExpenseRow>, payments: seq<PaymentRow>, key: string)
    requires RowIds(expenses, payments)
    ensures key in Ledger(expenses, payments) <==> PairKey(key) && KeyValue(expenses, payments, key) != 0
  {
    hide Signed, Less;
    var users := UsersOf(expenses, payments);
    if key in KeysOver(users) {
      var a, b :| a in users && b in users && Less(a, b) && key == Key(a, b);
      UsersAreIds(expenses, payments);
      PartsOfKey(a, b);
    }
    if PairKey(key) && KeyValue(expenses, payments, key) != 0 {
      var (a, b) := Parts(key);
      BothKnown(expenses, payments, b, a);
    }
  }

  lemma BothKnown(expenses: seq<ExpenseRow>, payments: seq<PaymentRow>, x: UserId, y: UserId)
    requires Signed(expenses, payments, x, y) != 0
    ensures x in UsersOf(expenses, payments) && y in UsersOf(expenses, payments)
  {
    hide Owed, UsersOf;
    if x !in UsersOf(expenses, payments) || y !in UsersOf(expenses, payments) {
      StrangerOwesNothing(expenses, payments, x, y);
      StrangerOwesNothing(expenses, payments, y, x);
    }
  }

  lemma UsersAreIds(expenses: seq<ExpenseRow>, payments: seq<PaymentRow>)
    requires RowIds(expenses, payments)
    ensures forall u :: u in UsersOf(expenses, payments) ==> Id(u)
  {
    forall u | u in UsersOf(expenses, payments)
      ensures Id(u)
    {
      assert (exists e :: e in expenses && (e.paidBy == u || u in e.splits))
          || (exists p :: p in payments && (p.fromUser == u || p.toUser == u));
    }
  }

  /** Zero entries of the Map do not show in the result. */
  lemma {:induction false} CollectSkipsZeros(pair: map<string, int>, live: map<string, int>, todo: set<string>,
                                             sofar: Balance)
    requires todo <= pair.Keys && forall key :: key in live <==> key in pair && pair[key] != 0
    requires forall key :: key in live ==> live[key] == pair[key]
    ensures CollectFrom(pair, todo, sofar) == CollectFrom(live, todo * live.Keys, sofar)
    decreases |todo|
  {
    hide Less, DebtOf, Apply;
    if todo != {} {
      var key := Least(todo);
      if pair[key] == 0 {
        CollectSkipsZeros(pair, live, todo - {key}, sofar);
        assert (todo - {key}) * live.Keys == todo * live.Keys;
      } else {
        var d := DebtOf(key, pair[key]);
        CollectSkipsZeros(pair, live, todo - {key}, Balance(Apply(sofar.net, d), sofar.pairwise + [d]));
        assert (todo - {key}) * live.Keys == todo * live.Keys - {key};
        LeastUnique(todo * live.Keys, key, Least(todo * live.Keys));
      }
    } else {
      assert todo * live.Keys == {};
    }
  }

  lemma RepresentsLedger(pair: map<string, int>, expenses: seq<ExpenseRow>, payments: seq<PaymentRow>)
    requires RowIds(expenses, payments) && Represents(pair, expenses, payments)
    ensures Collect(pair) == Collect(Ledger(expenses, payments))
  {
    hide PairKey, KeyValue, Ledger, RowIds, CollectFrom;
    var ledger := Ledger(expenses, payments);
    forall key
      ensures key in ledger <==> key in pair && pair[key] != 0
    {
      LedgerExact(expenses, payments, key);
    }
    forall key | key in ledger
      ensures ledger[key] == pair[key]
    {
      LedgerExact(expenses, payments, key);
      LedgerValue(expenses, payments, key);
    }
    CollectSkipsZeros(pair, ledger, pair.Keys, Balance(map[], []));
    assert pair.Keys * ledger.Keys == ledger.Keys;
  }

  lemma LedgerValue(expenses: seq<ExpenseRow>, payments: seq<PaymentRow>, key: string)
    requires key in Ledger(expenses, payments)
    ensures Ledger(expenses, payments)[key] == KeyValue(expenses, payments, key) != 0
  {
    hide KeyValue;
  }

  /** computeBalances: the Map of pairs, then its entries in key order. */
  method ComputeBalances(expenses: seq<ExpenseRow>, payments: seq<PaymentRow>) returns (r: Balance)
    requires RowIds(expenses, payments)
    ensures r == Collect(Ledger(expenses, payments))
  {
    hide Represents, Collect, Ledger, RowIds;
    var pair := EnterRows(expenses, payments);
    r := ReadOut(pair);
    RepresentsLedger(pair, expenses, payments);
  }

  // ---------- what the result says ----------

  /** Every debt listed among the remaining keys. */
  lemma {:induction false} CollectPairs(pair: map<string, int>, todo: set<string>, sofar: Balance, d: Debt)
    requires todo <= pair.Keys
    ensures d in CollectFrom(pair, todo, sofar).pairwise <==>
            d in sofar.pairwise || exists key :: key in todo && pair[key] != 0 && d == DebtOf(key, pair[key])
    decreases |todo|
  {
    hide Less, DebtOf, Apply;
    if todo != {} {
      var key := Least(todo);
      var rest := todo - {key};
      assert forall k :: k in todo <==> k == key || k in rest;
      if pair[key] == 0 {
        CollectPairs(pair, rest, sofar, d);
      } else {
        var e := DebtOf(key, pair[key]);
        CollectPairs(pair, rest, Balance(Apply(sofar.net, e), sofar.pairwise + [e]), d);
      }
    }
  }

  lemma DebtOfKey(expenses: seq<ExpenseRow>, payments: seq<PaymentRow>, key: string)
    requires PairKey(key) && KeyValue(expenses, payments, key) != 0
    ensures var d := DebtOf(key, KeyValue(expenses, payments, key));
            && d.from != d.to && Id(d.from) && Id(d.to) && d.amountCents == Signed(expenses, payments, d.from, d.to) > 0
            && key == (if Less(d.from, d.to) then Key(d.from, d.to) else Key(d.to, d.from))
  {
    hide Less, Owed, Key, Parts;
    PartsDiffer(key);
    LessAsymmetric(Parts(key).0, Parts(key).1);
  }

  /**
   The list is exact: `x` is listed as owing `y` some amount exactly when that amount is
   positive and is what all shares and counted payments between the two come to.
   */
  lemma PairwiseExact(expenses: seq<ExpenseRow>, payments: seq<PaymentRow>, x: UserId, y: UserId, n: int)
    requires RowIds(expenses, payments)
    ensures Debt(x, y, n) in Collect(Ledger(expenses, payments)).pairwise <==>
            x != y && Signed(expenses, payments, x, y) == n > 0
  {
    hide Ledger, Less, Owed, Key, Parts, UsersOf, RowIds, PairKey, KeyValue;
    var ledger := Ledger(expenses, payments);
    var d := Debt(x, y, n);
    CollectPairs(ledger, ledger.Keys, Balance(map[], []), d);
    if key :| key in ledger && d == DebtOf(key, ledger[key]) {
      LedgerExact(expenses, payments, key);
      LedgerValue(expenses, payments, key);
      DebtOfKey(expenses, payments, key);
    }
    if x != y && Signed(expenses, payments, x, y) == n > 0 {
      KnownDebt(expenses, payments, d);
    }
  }

  lemma KnownDebt(expenses: seq<ExpenseRow>, payments: seq<PaymentRow>, d: Debt)
    requires RowIds(expenses, payments) && d.from != d.to
             && Signed(expenses, payments, d.from, d.to) == d.amountCents > 0
    ensures exists key :: key in Ledger(expenses, payments) && Ledger(expenses, payments)[key] != 0
                          && d == DebtOf(key, Ledger(expenses, payments)[key])
  {
    hide Ledger, Less, Owed, UsersOf;
    var x, y := d.from, d.to;
    BothKnown(expenses, payments, x, y);
    UsersAreIds(expenses, payments);
    PartsOfKey(x, y);
    PartsOfKey(y, x);
    LessTotal(x, y);
    var key := if Less(x, y) then Key(x, y) else Key(y, x);
    LedgerExact(expenses, payments, key);
    LedgerValue(expenses, payments, key);
  }

  /** The pairs of users of a list are listed once each, in whichever direction. */
  predicate PairsOnce(list: seq<Debt>) {
    forall i, j :: 0 <= i < j < |list| ==> {list[i].from, list[i].to} != {list[j].from, list[j].to}
  }

  ghost predicate Fresh(pairwise: seq<Debt>, todo: set<string>) {
    forall d, key :: d in pairwise && key in todo ==> {d.from, d.to} != {Parts(key).0, Parts(key).1}
  }

  lemma {:induction false} CollectOnce(pair: map<string, int>, todo: set<string>, sofar: Balance)
    requires todo <= pair.Keys && (forall key :: key in pair ==> PairKey(key))
    requires PairsOnce(sofar.pairwise) && Fresh(sofar.pairwise, todo)
    ensures PairsOnce(CollectFrom(pair, todo, sofar).pairwise)
    decreases |todo|
  {
    hide Less, Apply, Parts, Key, PairKey;
    if todo != {} {
      var key := Least(todo);
      if pair[key] == 0 {
        CollectOnce(pair, todo - {key}, sofar);
      } else {
        var d := DebtOf(key, pair[key]);
        assert {d.from, d.to} == {Parts(key).0, Parts(key).1};
        forall k | k in todo - {key}
          ensures {d.from, d.to} != {Parts(k).0, Parts(k).1}
        {
          KeysDiffer(k, key);
        }
        CollectOnce(pair, todo - {key}, Balance(Apply(sofar.net, d), sofar.pairwise + [d]));
      }
    }
  }

  lemma KeysDiffer(k: string, l: string)
    requires PairKey(k) && PairKey(l) && k != l
    ensures {Parts(k).0, Parts(k).1} != {Parts(l).0, Parts(l).1}
  {
    hide Parts, Less;
    PartsDiffer(k);
    PartsDiffer(l);
    var (a, b) := Parts(k);
    var (c, d) := Parts(l);
    LessAsymmetric(a, b);
    assert a in {a, b} && b in {a, b} && c in {c, d} && d in {c, d};
  }

  /** Each unordered pair of users is listed at most once. */
  lemma EachPairOnce(expenses: seq<ExpenseRow>, payments: seq<PaymentRow>)
    requires RowIds(expenses, payments)
    ensures PairsOnce(Collect(Ledger(expenses, payments)).pairwise)
  {
    hide Ledger, PairKey, RowIds;
    var ledger := Ledger(expenses, payments);
    forall key | key in ledger
      ensures PairKey(key)
    {
      LedgerExact(expenses, payments, key);
    }
    CollectOnce(ledger, ledger.Keys, Balance(map[], []));
  }

  // ---------- the order of the list, and who has a net ----------

  function Lower(d: Debt): UserId {
    if Less(d.from, d.to) then d.from else d.to
  }

  function Upper(d: Debt): UserId {
    if Less(d.from, d.to) then d.to else d.from
  }

  function KeyOf(d: Debt): string {
    Key(Lower(d), Upper(d))
  }

  /** The keys of the listed debts ascend, and those to come are greater. */
  ghost predicate Ascends(list: seq<Debt>, todo: set<string>) {
    && (forall i, j :: 0 <= i < j < |list| ==> Less(KeyOf(list[i]), KeyOf(list[j])))
    && (forall i, key :: 0 <= i < |list| && key in todo ==> Less(KeyOf(list[i]), key))
  }

  lemma KeyOfDebt(key: string, value: int)
    requires PairKey(key) && value != 0
    ensures KeyOf(DebtOf(key, value)) == key && Id(DebtOf(key, value).from) && Id(DebtOf(key, value).to)
  {
    hide Less, Key, Parts;
    PartsDiffer(key);
    LessAsymmetric(Parts(key).0, Parts(key).1);
  }

  lemma {:induction false} CollectAscends(pair: map<string, int>, todo: set<string>, sofar: Balance)
    requires todo <= pair.Keys && (forall key :: key in pair ==> PairKey(key)) && Ascends(sofar.pairwise, todo)
    requires forall d :: d in sofar.pairwise ==> Id(d.from) && Id(d.to)
    ensures Ascends(CollectFrom(pair, todo, sofar).pairwise, {})
    ensures forall d :: d in CollectFrom(pair, todo, sofar).pairwise ==> Id(d.from) && Id(d.to)
    decreases |todo|
  {
    hide Less, Apply, DebtOf, PairKey, KeyOf;
    if todo != {} {
      var key := Least(todo);
      if pair[key] == 0 {
        CollectAscends(pair, todo - {key}, sofar);
      } else {
        var d := DebtOf(key, pair[key]);
        KeyOfDebt(key, pair[key]);
        CollectAscends(pair, todo - {key}, Balance(Apply(sofar.net, d), sofar.pairwise + [d]));
      }
    }
  }

  lemma KeyOrder(a: UserId, b: UserId, c: UserId, d: UserId)
    requires |a| == |c|
    ensures Less(Key(a, b), Key(c, d)) <==> Less(a, c) || (a == c && Less(b, d))
  {
    hide Less;
    LessConcat(a, "|" + b, c, "|" + d);
    LessConcat("|", b, "|", d);
    LessIrreflexive("|");
    assert Key(a, b) == a + ("|" + b) && Key(c, d) == c + ("|" + d);
  }

  /** The debts are listed by the smaller id of the pair, and on one smaller id by the greater. */
  lemma ListedByPair(expenses: seq<ExpenseRow>, payments: seq<PaymentRow>)
    requires RowIds(expenses, payments)
    ensures var list := Collect(Ledger(expenses, payments)).pairwise;
            forall i, j :: 0 <= i < j < |list| ==>
              Less(Lower(list[i]), Lower(list[j]))
              || (Lower(list[i]) == Lower(list[j]) && Less(Upper(list[i]), Upper(list[j])))
  {
    hide Ledger, PairKey, RowIds, Less, Key;
    var ledger := Ledger(expenses, payments);
    forall key | key in ledger
      ensures PairKey(key)
    {
      LedgerExact(expenses, payments, key);
    }
    CollectAscends(ledger, ledger.Keys, Balance(map[], []));
    var list := Collect(ledger).pairwise;
    forall i, j | 0 <= i < j < |list|
      ensures Less(Lower(list[i]), Lower(list[j]))
              || (Lower(list[i]) == Lower(list[j]) && Less(Upper(list[i]), Upper(list[j])))
    {
      assert list[i] in list && list[j] in list;
      KeyOrder(Lower(list[i]), Upper(list[i]), Lower(list[j]), Upper(list[j]));
    }
  }

  /** Someone owes or is owed a listed debt. */
  ghost predicate IsParty(list: seq<Debt>, u: UserId) {
    exists d :: d in list && (d.from == u || d.to == u)
  }

  lemma {:induction false} CollectParties(pair: map<string, int>, todo: set<string>, sofar: Balance, u: UserId)
    requires todo <= pair.Keys && (u in sofar.net <==> IsParty(sofar.pairwise, u))
    ensures var after := CollectFrom(pair, todo, sofar); u in after.net <==> IsParty(after.pairwise, u)
    decreases |todo|
  {
    hide Less, DebtOf;
    if todo != {} {
      var key := Least(todo);
      if pair[key] == 0 {
        CollectParties(pair, todo - {key}, sofar, u);
      } else {
        var d := DebtOf(key, pair[key]);
        PartiesSnoc(sofar.pairwise, d, u);
        CollectParties(pair, todo - {key}, Balance(Apply(sofar.net, d), sofar.pairwise + [d]), u);
      }
    }
  }

  lemma PartiesSnoc(list: seq<Debt>, d: Debt, u: UserId)
    ensures IsParty(list + [d], u) <==> IsParty(list, u) || d.from == u || d.to == u
  {
    assert d in list + [d];
    assert forall e :: e in list ==> e in list + [d];
  }

  /** The users with a net are those who owe or are owed something. */
  lemma NetsOfParties(expenses: seq<ExpenseRow>, payments: seq<PaymentRow>, u: UserId)
    requires RowIds(expenses, payments)
    ensures u in Collect(Ledger(expenses, payments)).net <==>
            exists v :: v != u && Signed(expenses, payments, u, v) != 0
  {
    hide Ledger, RowIds, Less, Owed, Apply, IsLeast;
    var ledger := Ledger(expenses, payments);
    CollectParties(ledger, ledger.Keys, Balance(map[], []), u);
    var list := Collect(ledger).pairwise;
    if IsParty(list, u) {
      var d :| d in list && (d.from == u || d.to == u);
      PairwiseExact(expenses, payments, d.from, d.to, d.amountCents);
      assert Signed(expenses, payments, u, if d.from == u then d.to else d.from) != 0;
    }
    if v :| v != u && Signed(expenses, payments, u, v) != 0 {
      var n := Signed(expenses, payments, u, v);
      PairwiseExact(expenses, payments, u, v, n);
      PairwiseExact(expenses, payments, v, u, -n);
      assert Debt(u, v, n) in list || Debt(v, u, -n) in list;
    }
  }
}
