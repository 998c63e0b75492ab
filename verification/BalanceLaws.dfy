/**
 What computeBalances promises beyond its list of debts: every net is what the rows say, nets
 sum to zero, row order does not matter, and what recording, disputing and resolving a payment
 does to the balances.
 */
module BalanceLaws {
  import opened Text
  import opened Sums
  import opened Splits
  import opened Balances

  ghost function BalanceOf(expenses: seq<ExpenseRow>, payments: seq<PaymentRow>): Balance {
    Collect(Ledger(expenses, payments))
  }

  // ---------- nets ----------

  /** What one pair adds to the net of `x`. */
  function Contribution(key: string, value: int, x: UserId): int {
    var (a, b) := Parts(key);
    if a == b then 0 else if a == x then value else if b == x then -value else 0
  }

  function Contributions(pair: map<string, int>, x: UserId): map<string, int> {
    map key | key in pair :: Contribution(key, pair[key], x)
  }

  lemma ApplyAt(net: map<UserId, int>, key: string, value: int, x: UserId)
    requires PairKey(key)
    ensures Get(Apply(net, DebtOf(key, value)), x) == Get(net, x) + Contribution(key, value, x)
    ensures Total(Apply(net, DebtOf(key, value))) == Total(net)
  {
    hide Parts, Key, Less, Id, Total;
    PartsDiffer(key);
    var d := DebtOf(key, value);
    TotalUpdate(net, d.from, Get(net, d.from) - d.amountCents);
    var paid := net[d.from := Get(net, d.from) - d.amountCents];
    TotalUpdate(paid, d.to, Get(paid, d.to) + d.amountCents);
  }

  lemma {:induction false} CollectNet(pair: map<string, int>, todo: set<string>, sofar: Balance, x: UserId)
    requires todo <= pair.Keys && forall key :: key in pair ==> PairKey(key)
    ensures Get(CollectFrom(pair, todo, sofar).net, x) == Get(sofar.net, x) + Sum(todo, Contributions(pair, x))
    ensures Total(CollectFrom(pair, todo, sofar).net) == Total(sofar.net)
    decreases |todo|
  {
    hide PairKey, Less, DebtOf, Apply, Parts, Sum, Total;
    if todo == {} {
      SumEmpty(Contributions(pair, x));
    } else {
      var key := Least(todo);
      SumTake(todo, Contributions(pair, x), key);
      var d := DebtOf(key, pair[key]);
      ApplyAt(sofar.net, key, pair[key], x);
      if pair[key] == 0 {
        CollectNet(pair, todo - {key}, sofar, x);
      } else {
        CollectNet(pair, todo - {key}, Balance(Apply(sofar.net, d), sofar.pairwise + [d]), x);
      }
    }
  }

  lemma LedgerKeys(expenses: seq<ExpenseRow>, payments: seq<PaymentRow>)
    requires RowIds(expenses, payments)
    ensures forall key :: key in Ledger(expenses, payments) ==> PairKey(key)
  {
    hide PairKey, Ledger, RowIds, KeyValue;
    forall key | key in Ledger(expenses, payments)
      ensures PairKey(key)
    {
      LedgerExact(expenses, payments, key);
    }
  }

  /** Nets sum to zero: money is conserved. */
  lemma NetsSumToZero(expenses: seq<ExpenseRow>, payments: seq<PaymentRow>)
    requires RowIds(expenses, payments)
    ensures Total(BalanceOf(expenses, payments).net) == 0
  {
    hide PairKey, Ledger, RowIds, CollectFrom, Total;
    var ledger := Ledger(expenses, payments);
    LedgerKeys(expenses, payments);
    var none: map<UserId, int> := map[];
    CollectNet(ledger, ledger.Keys, Balance(none, []), "");
    SumEmpty(none);
  }

  /** What each user owes `x`, net. */
  function OwedTo(expenses: seq<ExpenseRow>, payments: seq<PaymentRow>, users: set<UserId>, x: UserId)
      : map<UserId, int>
  {
    map y | y in users :: Signed(expenses, payments, y, x)
  }

  /** The other user of a pair with `x`; pairs without `x` are filed under `x` itself. */
  function Other(key: string, x: UserId): UserId {
    var (a, b) := Parts(key);
    if a == x then b else if b == x then a else x
  }

  function Others(pair: map<string, int>, x: UserId): map<string, UserId> {
    map key | key in pair :: Other(key, x)
  }

  lemma OtherFiber(expenses: seq<ExpenseRow>, payments: seq<PaymentRow>, x: UserId, y: UserId)
    requires RowIds(expenses, payments) && Id(x) && Id(y)
    ensures var ledger := Ledger(expenses, payments);
            Sum(Fiber(ledger.Keys, Others(ledger, x), y), Contributions(ledger, x)) == Signed(expenses, payments, y, x)
  {
    hide Ledger, Less, UsersOf, Owed, RowIds, Id, Parts, Key, PairKey, KeyValue, Sum;
    var ledger := Ledger(expenses, payments);
    var fiber, c := Fiber(ledger.Keys, Others(ledger, x), y), Contributions(ledger, x);
    LedgerKeys(expenses, payments);
    if x == y {
      forall key | key in fiber
        ensures c[key] == 0
      {
        PartsDiffer(key);
      }
      SumZero(fiber, c);
    } else {
      PartsOfKey(x, y);
      PartsOfKey(y, x);
      LessTotal(x, y);
      var key := if Less(x, y) then Key(x, y) else Key(y, x);
      PairKeyOf(x, y);
      LedgerExact(expenses, payments, key);
      forall k | k in fiber
        ensures k == key
      {
        SameOther(k, x, y);
      }
      if key in ledger {
        LedgerValue(expenses, payments, key);
        KeyValueOf(expenses, payments, x, y);
        assert fiber == {key};
        SumSingle(fiber, c, key);
      } else {
        KeyValueOf(expenses, payments, x, y);
        assert fiber == {};
        SumEmpty(c);
      }
    }
  }

  lemma PairKeyOf(x: UserId, y: UserId)
    requires Id(x) && Id(y) && x != y
    ensures PairKey(if Less(x, y) then Key(x, y) else Key(y, x))
  {
    hide Parts, Key, Less;
    PartsOfKey(x, y);
    PartsOfKey(y, x);
    LessTotal(x, y);
  }

  lemma KeyValueOf(expenses: seq<ExpenseRow>, payments: seq<PaymentRow>, x: UserId, y: UserId)
    requires Id(x) && Id(y) && x != y
    ensures KeyValue(expenses, payments, if Less(x, y) then Key(x, y) else Key(y, x))
         == if Less(x, y) then Signed(expenses, payments, y, x) else Signed(expenses, payments, x, y)
  {
    hide Parts, Key, Less, Owed;
    PartsOfKey(x, y);
    PartsOfKey(y, x);
  }

  lemma SameOther(k: string, x: UserId, y: UserId)
    requires PairKey(k) && x != y && Other(k, x) == y
    ensures k == if Less(x, y) then Key(x, y) else Key(y, x)
  {
    hide Parts, Key, Less;
    PartsDiffer(k);
    if Less(Parts(k).0, Parts(k).1) { LessAsymmetric(Parts(k).0, Parts(k).1); }
  }

  /** The net read out of the pairs is what all others owe `x`, net. */
  lemma NetIsOwedTo(expenses: seq<ExpenseRow>, payments: seq<PaymentRow>, users: set<UserId>, x: UserId)
    requires RowIds(expenses, payments) && UsersOf(expenses, payments) + {x} <= users
             && forall u :: u in users ==> Id(u)
    ensures Get(BalanceOf(expenses, payments).net, x) == Total(OwedTo(expenses, payments, users, x))
  {
    hide Ledger, Less, UsersOf, Signed, RowIds, Id, Parts, Key, PairKey, Sum, CollectFrom;
    var ledger := Ledger(expenses, payments);
    LedgerKeys(expenses, payments);
    var none: map<UserId, int> := map[];
    CollectNet(ledger, ledger.Keys, Balance(none, []), x);
    var c, part := Contributions(ledger, x), Others(ledger, x);
    forall key | key in ledger
      ensures part[key] in users
    {
      OtherKnown(expenses, payments, key);
    }
    SumByGroup(ledger.Keys, c, part, users);
    var subtotals := Subtotals(ledger.Keys, c, part, users);
    var owed := OwedTo(expenses, payments, users, x);
    forall y | y in users
      ensures subtotals[y] == owed[y]
    {
      OtherFiber(expenses, payments, x, y);
    }
    assert subtotals == owed;
  }

  lemma OtherKnown(expenses: seq<ExpenseRow>, payments: seq<PaymentRow>, key: string)
    requires RowIds(expenses, payments) && key in Ledger(expenses, payments)
    ensures Parts(key).0 in UsersOf(expenses, payments) && Parts(key).1 in UsersOf(expenses, payments)
  {
    hide Ledger, UsersOf, PairKey, Signed, Parts;
    LedgerExact(expenses, payments, key);
    BothKnown(expenses, payments, Parts(key).1, Parts(key).0);
  }

  // ---------- the same net, row by row ----------

  function ExpenseOwedTo(e: ExpenseRow, users: set<UserId>, x: UserId): map<UserId, int> {
    map y | y in users :: ExpenseOwed(e, y, x) - ExpenseOwed(e, x, y)
  }

  function PaymentOwedTo(p: PaymentRow, users: set<UserId>, x: UserId): map<UserId, int> {
    map y | y in users :: PaymentOwed(p, y, x) - PaymentOwed(p, x, y)
  }

  lemma ExpenseRowNet(e: ExpenseRow, users: set<UserId>, x: UserId)
    requires e.paidBy in users && e.splits.Keys <= users && x in users
    ensures Total(ExpenseOwedTo(e, users, x)) == ExpenseNet(e, x)
  {
    var owed := ExpenseOwedTo(e, users, x);
    assert owed.Keys == users;
    if e.paidBy == x {
      var shares := e.splits - {x};
      assert shares.Keys == e.splits.Keys - {x};
      SumAgree(shares.Keys, owed, shares);
      SumAgree(shares.Keys, e.splits, shares);
      SumUnion(shares.Keys, users - shares.Keys, owed);
      assert shares.Keys + (users - shares.Keys) == users;
      SumZero(users - shares.Keys, owed);
      if x in e.splits { SumTake(e.splits.Keys, e.splits, x); } else { assert shares.Keys == e.splits.Keys; }
    } else {
      SumSingle(users, owed, e.paidBy);
    }
  }

  lemma PaymentRowNet(p: PaymentRow, users: set<UserId>, x: UserId)
    requires p.fromUser in users && p.toUser in users && x in users
    ensures Total(PaymentOwedTo(p, users, x)) == PaymentNet(p, x)
  {
    var owed := PaymentOwedTo(p, users, x);
    assert owed.Keys == users;
    SumSingle(users, owed, if p.fromUser == x then p.toUser else p.fromUser);
  }

  /** Summed over everyone, what is owed to `x` is what the rows paid, received and charged. */
  lemma {:induction false} OwedToByRows(expenses: seq<ExpenseRow>, payments: seq<PaymentRow>, users: set<UserId>,
                                        x: UserId)
    requires x in users && (forall e :: e in expenses ==> e.paidBy in users && e.splits.Keys <= users)
    requires forall p :: p in payments ==> p.fromUser in users && p.toUser in users
    ensures Total(OwedTo(expenses, payments, users, x)) == NetOf(expenses, payments, x)
    decreases |expenses| + |payments|
  {
    hide Sum, Signed, ExpenseOwed, PaymentOwed, ExpenseNet, PaymentNet, SumRows;
    if payments != [] {
      var rest, p := payments[..|payments| - 1], payments[|payments| - 1];
      assert payments == rest + [p];
      OwedToByRows(expenses, rest, users, x);
      PaymentRowNet(p, users, x);
      SumRowsSnoc(rest, p, r => PaymentNet(r, x));
      AddPaymentRow(expenses, rest, p, users, x);
    } else if expenses != [] {
      var rest, e := expenses[..|expenses| - 1], expenses[|expenses| - 1];
      assert expenses == rest + [e];
      OwedToByRows(rest, payments, users, x);
      ExpenseRowNet(e, users, x);
      SumRowsSnoc(rest, e, r => ExpenseNet(r, x));
      AddExpenseRow(rest, payments, e, users, x);
    } else {
      NoRows(users, x);
    }
  }

  lemma NoRows(users: set<UserId>, x: UserId)
    ensures Total(OwedTo([], [], users, x)) == 0 == NetOf([], [], x)
  {
    var owed := OwedTo([], [], users, x);
    SumZero(owed.Keys, owed);
  }

  lemma AddPaymentRow(expenses: seq<ExpenseRow>, rest: seq<PaymentRow>, p: PaymentRow, users: set<UserId>, x: UserId)
    ensures Total(OwedTo(expenses, rest + [p], users, x))
         == Total(OwedTo(expenses, rest, users, x)) + Total(PaymentOwedTo(p, users, x))
  {
    hide Sum, Signed, PaymentOwed;
    var f, g, h := OwedTo(expenses, rest, users, x), PaymentOwedTo(p, users, x), OwedTo(expenses, rest + [p], users, x);
    forall y | y in users
      ensures h[y] == f[y] + g[y]
    {
      SignedPayment(expenses, rest, p, y, x);
    }
    assert f.Keys == users && g.Keys == users && h.Keys == users;
    SumPlus(users, f, g, h);
  }

  lemma AddExpenseRow(rest: seq<ExpenseRow>, payments: seq<PaymentRow>, e: ExpenseRow, users: set<UserId>, x: UserId)
    ensures Total(OwedTo(rest + [e], payments, users, x))
         == Total(OwedTo(rest, payments, users, x)) + Total(ExpenseOwedTo(e, users, x))
  {
    hide Sum, Signed, ExpenseOwed;
    var f, g, h := OwedTo(rest, payments, users, x), ExpenseOwedTo(e, users, x), OwedTo(rest + [e], payments, users, x);
    forall y | y in users
      ensures h[y] == f[y] + g[y]
    {
      SignedExpense(rest, payments, e, y, x);
    }
    assert f.Keys == users && g.Keys == users && h.Keys == users;
    SumPlus(users, f, g, h);
  }

  /**
   Every net is exact: what the user paid for others, less their shares of what others paid,
   plus counted payments sent, less counted payments received.
   */
  lemma NetExact(expenses: seq<ExpenseRow>, payments: seq<PaymentRow>, x: UserId)
    requires RowIds(expenses, payments) && Id(x)
    ensures Get(BalanceOf(expenses, payments).net, x) == NetOf(expenses, payments, x)
  {
    hide BalanceOf, Signed, NetOf, RowIds, Id, Total, UsersOf;
    var users := UsersOf(expenses, payments) + {x};
    UsersAreIds(expenses, payments);
    UsersCover(expenses, payments);
    NetIsOwedTo(expenses, payments, users, x);
    OwedToByRows(expenses, payments, users, x);
  }

  lemma UsersCover(expenses: seq<ExpenseRow>, payments: seq<PaymentRow>)
    ensures forall e :: e in expenses ==>
            e.paidBy in UsersOf(expenses, payments) && e.splits.Keys <= UsersOf(expenses, payments)
    ensures forall p :: p in payments ==>
            p.fromUser in UsersOf(expenses, payments) && p.toUser in UsersOf(expenses, payments)
  {
  }

  // ---------- what the balances depend on ----------

  /** Rows that agree on every pair give the same balances, entry for entry. */
  lemma SameSignedSameBalance(es: seq<ExpenseRow>, ps: seq<PaymentRow>, es': seq<ExpenseRow>, ps': seq<PaymentRow>)
    requires RowIds(es, ps) && RowIds(es', ps')
    requires forall x, y :: Signed(es, ps, x, y) == Signed(es', ps', x, y)
    ensures BalanceOf(es, ps) == BalanceOf(es', ps')
  {
    hide Ledger, Signed, RowIds, PairKey, Collect, Parts;
    var l, l' := Ledger(es, ps), Ledger(es', ps');
    forall key
      ensures key in l <==> key in l'
      ensures key in l ==> l[key] == l'[key]
    {
      LedgerExact(es, ps, key);
      LedgerExact(es', ps', key);
      if key in l {
        LedgerValue(es, ps, key);
        LedgerValue(es', ps', key);
      }
    }
    assert l == l';
  }

  lemma {:induction false} SumRowsSplit<T>(a: seq<T>, b: seq<T>, f: T -> int)
    ensures SumRows(a + b, f) == SumRows(a, f) + SumRows(b, f)
    decreases |b|
  {
    if b == [] {
      assert a + b == a;
    } else {
      var front, x := b[..|b| - 1], b[|b| - 1];
      SumRowsSplit(a, front, f);
      assert (a + b)[..|a + b| - 1] == a + front;
    }
  }

  lemma {:induction false} SumRowsPermuted<T>(a: seq<T>, b: seq<T>, f: T -> int)
    requires multiset(a) == multiset(b)
    ensures SumRows(a, f) == SumRows(b, f)
    decreases |a|
  {
    if a == [] {
      assert |b| == |multiset(b)| == |multiset(a)| == 0;
    } else {
      var front, x := a[..|a| - 1], a[|a| - 1];
      RemoveAt(a, |a| - 1);
      assert a[..|a| - 1] + a[|a| - 1 + 1..] == front;
      assert x in multiset(b);
      var i :| 0 <= i < |b| && b[i] == x;
      var rest := b[..i] + b[i + 1..];
      RemoveAt(b, i);
      assert multiset(rest) == multiset(b) - multiset{x} == multiset(front);
      SumRowsPermuted(front, rest, f);
      SumRowsRemove(b, i, f);
    }
  }

  lemma RemoveAt<T>(b: seq<T>, i: nat)
    requires i < |b|
    ensures multiset(b) == multiset(b[..i] + b[i + 1..]) + multiset{b[i]}
  {
    assert b == b[..i] + [b[i]] + b[i + 1..];
  }

  lemma SumRowsRemove<T>(b: seq<T>, i: nat, f: T -> int)
    requires i < |b|
    ensures SumRows(b, f) == SumRows(b[..i] + b[i + 1..], f) + f(b[i])
  {
    hide SumRows;
    assert b == b[..i] + [b[i]] + b[i + 1..];
    SumRowsSplit(b[..i] + [b[i]], b[i + 1..], f);
    SumRowsSnoc(b[..i], b[i], f);
    SumRowsSplit(b[..i], b[i + 1..], f);
  }

  /** The result does not depend on the order in which the rows are read. */
  lemma RowOrderIrrelevant(es: seq<ExpenseRow>, ps: seq<PaymentRow>, es': seq<ExpenseRow>, ps': seq<PaymentRow>)
    requires RowIds(es, ps) && multiset(es) == multiset(es') && multiset(ps) == multiset(ps')
    ensures RowIds(es', ps') && BalanceOf(es, ps) == BalanceOf(es', ps')
  {
    hide BalanceOf, SumRows, ExpenseIds, PaymentIds, ExpenseOwed, PaymentOwed;
    forall e | e in es'
      ensures e in es
    {
      assert e in multiset(es');
    }
    forall p | p in ps'
      ensures p in ps
    {
      assert p in multiset(ps');
    }
    forall x, y
      ensures Signed(es, ps, x, y) == Signed(es', ps', x, y)
    {
      SumRowsPermuted(es, es', e => ExpenseOwed(e, x, y));
      SumRowsPermuted(es, es', e => ExpenseOwed(e, y, x));
      SumRowsPermuted(ps, ps', p => PaymentOwed(p, x, y));
      SumRowsPermuted(ps, ps', p => PaymentOwed(p, y, x));
    }
    SameSignedSameBalance(es, ps, es', ps');
  }

  // ---------- settling, disputing, resolving ----------

  lemma SumRowsReplace<T>(rows: seq<T>, i: nat, row: T, f: T -> int)
    requires i < |rows|
    ensures SumRows(rows[i := row], f) == SumRows(rows, f) - f(rows[i]) + f(row)
  {
    SumRowsRemove(rows, i, f);
    SumRowsRemove(rows[i := row], i, f);
    assert rows[i := row][..i] == rows[..i] && rows[i := row][i + 1..] == rows[i + 1..];
  }

  lemma SignedReplace(es: seq<ExpenseRow>, ps: seq<PaymentRow>, i: nat, p: PaymentRow, x: UserId, y: UserId)
    requires i < |ps|
    ensures Signed(es, ps[i := p], x, y)
         == Signed(es, ps, x, y) - (PaymentOwed(ps[i], x, y) - PaymentOwed(ps[i], y, x))
            + (PaymentOwed(p, x, y) - PaymentOwed(p, y, x))
  {
    hide SumRows, PaymentOwed;
    SumRowsReplace(ps, i, p, r => PaymentOwed(r, x, y));
    SumRowsReplace(ps, i, p, r => PaymentOwed(r, y, x));
  }

  /**
   A disputed payment counts for nothing: balances are those of the house without it.
   Resolving brings back, exactly, the balances of the payment as recorded.
   */
  lemma DisputeAndResolve(es: seq<ExpenseRow>, ps: seq<PaymentRow>, p: PaymentRow, more: seq<PaymentRow>)
    requires RowIds(es, ps + [p] + more)
    ensures BalanceOf(es, ps + [p.(status := Disputed)] + more) == BalanceOf(es, ps + more)
    ensures BalanceOf(es, ps + [p.(status := Resolved)] + more) == BalanceOf(es, ps + [p.(status := Recorded)] + more)
  {
    hide BalanceOf, SumRows, ExpenseIds, PaymentOwed;
    var i := |ps|;
    var recorded, disputed, resolved := p.(status := Recorded), p.(status := Disputed), p.(status := Resolved);
    var with := ps + [recorded] + more;
    assert ps + [disputed] + more == with[i := disputed] && ps + [resolved] + more == with[i := resolved];
    RowIdsParts(es, ps, p, more);
    forall x, y
      ensures Signed(es, with, x, y) == Signed(es, with[i := resolved], x, y)
      ensures Signed(es, with[i := disputed], x, y) == Signed(es, ps + more, x, y)
    {
      SignedReplace(es, with, i, resolved, x, y);
      SameOwed(p, x, y);
      SameOwed(p, y, x);
      SignedWithout(es, ps, disputed, more, x, y);
    }
    SameSignedSameBalance(es, with[i := resolved], es, with);
    SameSignedSameBalance(es, with[i := disputed], es, ps + more);
  }

  lemma RowIdsParts(es: seq<ExpenseRow>, ps: seq<PaymentRow>, p: PaymentRow, more: seq<PaymentRow>)
    requires RowIds(es, ps + [p] + more)
    ensures RowIds(es, ps + more)
    ensures forall s: Status :: RowIds(es, ps + [p.(status := s)] + more)
  {
    hide ExpenseIds;
    assert p in ps + [p] + more;
    assert forall q :: q in ps || q in more ==> q in ps + [p] + more;
  }

  lemma SameOwed(p: PaymentRow, x: UserId, y: UserId)
    ensures PaymentOwed(p.(status := Recorded), x, y) == PaymentOwed(p.(status := Resolved), x, y)
    ensures PaymentOwed(p.(status := Disputed), x, y) == 0
  {
  }

  lemma SignedWithout(es: seq<ExpenseRow>, ps: seq<PaymentRow>, p: PaymentRow, more: seq<PaymentRow>, x: UserId,
                      y: UserId)
    ensures Signed(es, ps + [p] + more, x, y) == Signed(es, ps + more, x, y)
            + PaymentOwed(p, x, y) - PaymentOwed(p, y, x)
  {
    hide SumRows, PaymentOwed;
    forall f: PaymentRow -> int
      ensures SumRows(ps + [p] + more, f) == SumRows(ps + more, f) + f(p)
    {
      SumRowsSplit(ps + [p], more, f);
      SumRowsSnoc(ps, p, f);
      SumRowsSplit(ps, more, f);
    }
  }

  /** Paying exactly what a pair shows removes that pair from the list and changes no other pair. */
  lemma PayingSettlesThePair(es: seq<ExpenseRow>, ps: seq<PaymentRow>, x: UserId, y: UserId, n: int, d: Debt)
    requires RowIds(es, ps) && Debt(x, y, n) in BalanceOf(es, ps).pairwise
    ensures RowIds(es, ps + [PaymentRow(x, y, n, Recorded)])
    ensures d in BalanceOf(es, ps + [PaymentRow(x, y, n, Recorded)]).pairwise <==>
            d in BalanceOf(es, ps).pairwise && {d.from, d.to} != {x, y}
  {
    hide Ledger, Owed, ExpenseIds, Collect, UsersOf;
    var p := PaymentRow(x, y, n, Recorded);
    PairwiseExact(es, ps, x, y, n);
    BothKnown(es, ps, x, y);
    UsersAreIds(es, ps);
    PairwiseExact(es, ps, d.from, d.to, d.amountCents);
    PairwiseExact(es, ps + [p], d.from, d.to, d.amountCents);
    SignedPayment(es, ps, p, d.from, d.to);
    SameTwo(d.from, d.to, x, y);
  }

  lemma SameTwo(a: UserId, b: UserId, x: UserId, y: UserId)
    requires x != y
    ensures a != b ==> ({a, b} == {x, y} <==> (a == x && b == y) || (a == y && b == x))
  {
    if {a, b} == {x, y} {
      assert a in {x, y} && b in {x, y};
    }
  }
}
