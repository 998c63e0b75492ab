/**
 The unified ledger listing (getLedger and getLedgerPage in
 apps/api/src/ledger/ledger.service.ts): keyset pagination over expenses and payments merged.
 Cursors are the (createdAt, id) of a row; their base64url encoding is left out.
 */
module Pagination {
  import opened Text
  import opened Sums

  datatype Kind = Expense | Payment

  /** A ledger row; ids are UUID text, which orders as the database orders uuids. */
  datatype Entry = Entry(kind: Kind, createdAt: int, id: string)

  datatype Cursor = Cursor(t: int, id: string)

  datatype Page = Page(entries: seq<Entry>, nextCursor: Option<Cursor>)

  /** (createdAt, id) descending: `a` is listed before `b`. */
  predicate Newer(a: Entry, b: Entry) {
    a.createdAt > b.createdAt || (a.createdAt == b.createdAt && Less(b.id, a.id))
  }

  /** No two rows share id and time; ids are primary keys and never shared between the tables. */
  ghost predicate Keyed(rows: set<Entry>) {
    forall a, b :: a in rows && b in rows && a.id == b.id && a.createdAt == b.createdAt ==> a == b
  }

  lemma NewerTransitive(a: Entry, b: Entry, c: Entry)
    requires Newer(a, b) && Newer(b, c)
    ensures Newer(a, c)
  {
    hide Less;
    if a.createdAt == b.createdAt == c.createdAt { LessTransitive(c.id, b.id, a.id); }
  }

  lemma NewerTotal(a: Entry, b: Entry)
    ensures Newer(a, b) || Newer(b, a) || (a.createdAt == b.createdAt && a.id == b.id)
  {
    LessTotal(a.id, b.id);
  }

  lemma NewerAsymmetric(a: Entry, b: Entry)
    requires Newer(a, b)
    ensures !Newer(b, a) && a != b
  {
    hide Less;
    LessIrreflexive(a.id);
    if a.createdAt == b.createdAt { LessAsymmetric(b.id, a.id); }
  }

  // ---------- sorting ----------

  predicate Sorted(rows: seq<Entry>) {
    forall i, j :: 0 <= i < j < |rows| ==> Newer(rows[i], rows[j])
  }

  function Insert(e: Entry, rows: seq<Entry>): (r: seq<Entry>)
    ensures SetOf(r) == SetOf(rows) + {e} && |r| == |rows| + 1
  {
    if rows == [] then [e]
    else if Newer(e, rows[0]) then
      SetCons(e, rows);
      [e] + rows
    else
      var rest := Insert(e, rows[1..]);
      SetCons(rows[0], rest);
      SetCons(rows[0], rows[1..]);
      assert rows == [rows[0]] + rows[1..];
      [rows[0]] + rest
  }

  /** `[...].sort(...)` by (createdAt, id) descending. */
  function SortRows(rows: seq<Entry>): (r: seq<Entry>)
    ensures SetOf(r) == SetOf(rows) && |r| == |rows|
  {
    if rows == [] then []
    else
      SetCons(rows[0], rows[1..]);
      assert rows == [rows[0]] + rows[1..];
      Insert(rows[0], SortRows(rows[1..]))
  }

  lemma SortedCons(e: Entry, rows: seq<Entry>)
    requires Sorted(rows) && forall x :: x in rows ==> Newer(e, x)
    ensures Sorted([e] + rows)
  {
    hide Newer;
    var all := [e] + rows;
    forall i, j | 0 <= i < j < |all|
      ensures Newer(all[i], all[j])
    {
      assert all[j] == rows[j - 1] && rows[j - 1] in rows;
      if i > 0 { assert all[i] == rows[i - 1]; }
    }
  }

  lemma SortedTail(rows: seq<Entry>)
    requires rows != [] && Sorted(rows)
    ensures Sorted(rows[1..]) && forall x :: x in rows[1..] ==> Newer(rows[0], x)
  {
    hide Newer;
  }

  lemma {:induction false} InsertSorted(e: Entry, rows: seq<Entry>)
    requires Sorted(rows) && Keyed(SetOf(rows) + {e}) && e !in rows
    ensures Sorted(Insert(e, rows))
    decreases |rows|
  {
    hide Newer, Keyed;
    if rows != [] {
      var head, rest := rows[0], rows[1..];
      SortedTail(rows);
      assert rows == [head] + rest;
      if Newer(e, head) {
        forall x | x in rows
          ensures Newer(e, x)
        {
          if x != head { NewerTransitive(e, head, x); }
        }
        SortedCons(e, rows);
      } else {
        KeyedPart(SetOf(rows) + {e}, SetOf(rest) + {e});
        KeyedPair(SetOf(rows) + {e}, e, head);
        InsertSorted(e, rest);
        assert forall x :: x in Insert(e, rest) <==> x in SetOf(Insert(e, rest));
        SortedCons(head, Insert(e, rest));
      }
    }
  }

  lemma KeyedPart(rows: set<Entry>, part: set<Entry>)
    requires Keyed(rows) && part <= rows
    ensures Keyed(part)
  {
  }

  lemma KeyedPair(rows: set<Entry>, a: Entry, b: Entry)
    requires Keyed(rows) && a in rows && b in rows && a != b
    ensures Newer(a, b) || Newer(b, a)
  {
    NewerTotal(a, b);
  }

  lemma {:induction false} SortSorts(rows: seq<Entry>)
    requires Keyed(SetOf(rows)) && Distinct(rows)
    ensures Sorted(SortRows(rows))
    decreases |rows|
  {
    hide Newer, Keyed;
    if rows != [] {
      var e, rest := rows[0], rows[1..];
      assert rows == [e] + rest;
      SetCons(e, rest);
      assert forall i :: 0 <= i < |rest| ==> rest[i] == rows[i + 1];
      KeyedPart(SetOf(rows), SetOf(rest));
      SortSorts(rest);
      assert e !in SortRows(rest) by { assert e !in SetOf(SortRows(rest)); }
      assert SetOf(SortRows(rest)) + {e} == SetOf(rows);
      InsertSorted(e, SortRows(rest));
    }
  }

  // ---------- tables and queries ----------

  /** A table in descending order. */
  ghost function Descending(rows: set<Entry>): (r: seq<Entry>)
    ensures SetOf(r) == rows && |r| == |rows|
    decreases |rows|
  {
    if rows == {} then []
    else
      var e :| e in rows;
      Insert(e, Descending(rows - {e}))
  }

  lemma {:induction false} DescendingSorted(rows: set<Entry>)
    requires Keyed(rows)
    ensures Sorted(Descending(rows))
    decreases |rows|
  {
    hide Newer, Keyed, Sorted, Insert, Descending, SetOf;
    if rows == {} {
      NothingSorted();
      assert Descending(rows) == [];
    } else {
      var e := DescendingStep(rows);
      KeyedPart(rows, rows - {e});
      DescendingSorted(rows - {e});
      InSet(e, Descending(rows - {e}));
      assert rows - {e} + {e} == rows;
      InsertSorted(e, Descending(rows - {e}));
    }
  }

  lemma InSet(e: Entry, rows: seq<Entry>)
    ensures e in rows <==> e in SetOf(rows)
  {
  }

  lemma DescendingStep(rows: set<Entry>) returns (e: Entry)
    requires rows != {}
    ensures e in rows && Descending(rows) == Insert(e, Descending(rows - {e}))
  {
    hide Insert;
    e :| e in rows && Descending(rows) == Insert(e, Descending(rows - {e}));
  }

  lemma NothingSorted()
    ensures Sorted([])
  {
  }

  function Min(a: nat, b: nat): nat {
    if a < b then a else b
  }

  /** (created_at, id) < cursor */
  predicate Below(e: Entry, cursor: Option<Cursor>) {
    cursor.Some? ==> Newer(Entry(Expense, cursor.value.t, cursor.value.id), e)
  }

  function Rest(rows: set<Entry>, cursor: Option<Cursor>): set<Entry> {
    set e | e in rows && Below(e, cursor)
  }

  /** SELECT ... WHERE below the cursor ORDER BY (created_at, id) DESC LIMIT n */
  ghost function Query(rows: set<Entry>, cursor: Option<Cursor>, n: nat): (r: seq<Entry>)
    ensures |r| == Min(n, |Rest(rows, cursor)|)
  {
    var all := Descending(Rest(rows, cursor));
    all[..Min(n, |all|)]
  }

  function CursorOf(e: Entry): Cursor {
    Cursor(e.createdAt, e.id)
  }

  /** getLedgerPage without the splits it attaches. */
  ghost function LedgerPage(expenses: set<Entry>, payments: set<Entry>, cursor: Option<Cursor>, limit: nat): Page {
    var fetch := limit + 1;
    var merged := SortRows(Query(expenses, cursor, fetch) + Query(payments, cursor, fetch));
    var page := merged[..Min(limit, |merged|)];
    Page(page, if |merged| > limit && page != [] then Some(CursorOf(page[|page| - 1])) else None)
  }

  // ---------- the newest n rows ----------

  /** `r` lists the newest `n` of the rows, newest first. */
  ghost predicate Top(r: seq<Entry>, rows: set<Entry>, n: nat) {
    && Sorted(r) && |r| == Min(n, |rows|) && SetOf(r) <= rows
    && forall x, y :: x in rows - SetOf(r) && y in r ==> Newer(y, x)
  }

  lemma SortedDistinct(r: seq<Entry>)
    requires Sorted(r)
    ensures Distinct(r) && |SetOf(r)| == |r|
  {
    hide Newer;
    forall i, j | 0 <= i < j < |r|
      ensures r[i] != r[j]
    {
      NewerAsymmetric(r[i], r[j]);
    }
    DistinctSize(r);
  }

  lemma {:induction false} SortedUnique(a: seq<Entry>, b: seq<Entry>)
    requires Sorted(a) && Sorted(b) && SetOf(a) == SetOf(b)
    ensures a == b
    decreases |a|
  {
    hide Newer, Sorted;
    assert forall x :: x in a <==> x in SetOf(a);
    assert forall x :: x in b <==> x in SetOf(b);
    if a == [] || b == [] {
      EmptySet(a);
      EmptySet(b);
    } else {
      SortedTail(a);
      SortedTail(b);
      SameNewest(a, b);
      assert a == [a[0]] + a[1..] && b == [b[0]] + b[1..];
      TailSet(a);
      TailSet(b);
      SortedUnique(a[1..], b[1..]);
    }
  }

  lemma SameNewest(a: seq<Entry>, b: seq<Entry>)
    requires a != [] && b != [] && a[0] in b && b[0] in a
    requires forall x :: x in a[1..] ==> Newer(a[0], x)
    requires forall x :: x in b[1..] ==> Newer(b[0], x)
    ensures a[0] == b[0]
  {
    hide Newer;
    assert a == [a[0]] + a[1..] && b == [b[0]] + b[1..];
    if a[0] != b[0] { NewerAsymmetric(a[0], b[0]); }
  }

  lemma TailSet(a: seq<Entry>)
    requires a != [] && forall x :: x in a[1..] ==> Newer(a[0], x)
    ensures SetOf(a[1..]) == SetOf(a) - {a[0]}
  {
    hide Newer;
    assert a == [a[0]] + a[1..];
    forall x | x in a[1..]
      ensures x != a[0]
    {
      NewerAsymmetric(a[0], x);
    }
  }

  lemma TopUnique(a: seq<Entry>, b: seq<Entry>, rows: set<Entry>, n: nat)
    requires Top(a, rows, n) && Top(b, rows, n)
    ensures a == b
  {
    hide Newer, Sorted;
    SortedDistinct(a);
    SortedDistinct(b);
    var s, t := SetOf(a), SetOf(b);
    if s != t {
      SubsetOrMore(s, t);
      SubsetOrMore(t, s);
      var x :| x in s && x !in t;
      var y :| y in t && y !in s;
      NewerAsymmetric(x, y);
    }
    SortedUnique(a, b);
  }

  /** Sets of one size that differ each have an element of their own. */
  lemma SubsetOrMore(s: set<Entry>, t: set<Entry>)
    requires |s| == |t| && s != t
    ensures exists x :: x in s && x !in t
  {
    assert s <= t ==> t == s + (t - s);
  }

  lemma QueryTop(rows: set<Entry>, cursor: Option<Cursor>, n: nat)
    requires Keyed(rows)
    ensures Top(Query(rows, cursor, n), Rest(rows, cursor), n)
  {
    hide Newer, Keyed, Below;
    var all := Descending(Rest(rows, cursor));
    KeyedPart(rows, Rest(rows, cursor));
    DescendingSorted(Rest(rows, cursor));
    PrefixTop(all, Min(n, |all|));
  }

  /** A prefix of a sorted listing is its newest rows. */
  lemma PrefixTop(all: seq<Entry>, n: nat)
    requires Sorted(all) && n <= |all|
    ensures Sorted(all[..n]) && SetOf(all[..n]) <= SetOf(all)
    ensures forall x, y :: x in SetOf(all) - SetOf(all[..n]) && y in all[..n] ==> Newer(y, x)
  {
    hide Newer;
    forall x, y | x in SetOf(all) - SetOf(all[..n]) && y in all[..n]
      ensures Newer(y, x)
    {
      assert all == all[..n] + all[n..];
      var i :| 0 <= i < |all[n..]| && all[n..][i] == x;
      var j :| 0 <= j < n && all[j] == y;
      assert all[n + i] == x;
    }
  }

  // ---------- one page ----------

  /** Merging the newest limit + 1 of each source and slicing is slicing the sorted union. */
  lemma MergeTop(es: set<Entry>, ps: set<Entry>, e: seq<Entry>, p: seq<Entry>, limit: nat, page: seq<Entry>)
    requires es !! ps && Top(e, es, limit + 1) && Top(p, ps, limit + 1) && Top(page, SetOf(e) + SetOf(p), limit)
    ensures Top(page, es + ps, limit)
    ensures |SetOf(e) + SetOf(p)| == |e| + |p| && (|e| + |p| > limit <==> |es + ps| > limit)
  {
    hide Newer, Sorted;
    SortedDistinct(e);
    SortedDistinct(p);
    SortedDistinct(page);
    var all := es + ps;
    assert |all| == |es| + |ps|;
    assert |SetOf(e) + SetOf(p)| == |e| + |p|;
    forall x, y | x in all - SetOf(page) && y in page
      ensures Newer(y, x)
    {
      if x in es && x !in e {
        BeyondFetch(es, e, SetOf(e) + SetOf(p), limit, page, x, y);
      } else if x in ps && x !in p {
        BeyondFetch(ps, p, SetOf(e) + SetOf(p), limit, page, x, y);
      } else {
        assert x in SetOf(e) + SetOf(p);
      }
    }
  }

  /** A row that its own query did not fetch is older than everything on the page. */
  lemma BeyondFetch(rows: set<Entry>, fetched: seq<Entry>, all: set<Entry>, limit: nat, page: seq<Entry>, x: Entry,
                    y: Entry)
    requires Top(fetched, rows, limit + 1) && SetOf(fetched) <= all && Top(page, all, limit)
    requires x in rows && x !in fetched && y in page
    ensures Newer(y, x)
  {
    hide Newer, Sorted;
    SortedDistinct(fetched);
    SortedDistinct(page);
    ProperPart(SetOf(fetched), rows, x);
    BiggerHasMore(SetOf(fetched), SetOf(page));
    var z :| z in SetOf(fetched) && z !in SetOf(page);
    NewerTransitive(y, z, x);
  }

  lemma ProperPart(part: set<Entry>, all: set<Entry>, x: Entry)
    requires part <= all && x in all && x !in part
    ensures |part| < |all|
  {
    assert all == part + (all - part);
  }

  lemma BiggerHasMore(s: set<Entry>, t: set<Entry>)
    requires |s| > |t|
    ensures exists x :: x in s && x !in t
  {
    assert s <= t ==> t == s + (t - s);
  }

  lemma RestUnion(a: set<Entry>, b: set<Entry>, cursor: Option<Cursor>)
    ensures Rest(a + b, cursor) == Rest(a, cursor) + Rest(b, cursor)
  {
  }

  /** The two fetches, merged and cut, are the newest of what they fetched. */
  lemma MergedTop(expenses: set<Entry>, payments: set<Entry>, e: seq<Entry>, p: seq<Entry>, limit: nat)
    requires Keyed(expenses + payments) && expenses !! payments
    requires Sorted(e) && Sorted(p) && SetOf(e) <= expenses && SetOf(p) <= payments
    ensures var merged := SortRows(e + p); Top(merged[..Min(limit, |merged|)], SetOf(e) + SetOf(p), limit)
  {
    hide Newer, Keyed, Sorted, SortRows;
    var merged := SortRows(e + p);
    MergedSorted(expenses, payments, e, p);
    SortedDistinct(merged);
    PrefixTop(merged, Min(limit, |merged|));
  }

  /** A page is the slice of the sorted union below the cursor, with a cursor exactly when more is left. */
  lemma PageIsSlice(expenses: set<Entry>, payments: set<Entry>, cursor: Option<Cursor>, limit: nat)
    requires Keyed(expenses + payments) && expenses !! payments
    ensures var page := LedgerPage(expenses, payments, cursor, limit);
            var left := Rest(expenses + payments, cursor);
            && page.entries == Query(expenses + payments, cursor, limit)
            && (page.nextCursor.Some? <==> |left| > limit > 0)
            && (page.nextCursor.Some? ==> page.nextCursor.value == CursorOf(page.entries[|page.entries| - 1]))
  {
    hide Newer, Keyed, Below, Sorted, Query, SortRows, Rest;
    var e, p := Query(expenses, cursor, limit + 1), Query(payments, cursor, limit + 1);
    QueriesTop(expenses, payments, cursor, limit);
    MergedTop(Rest(expenses, cursor), Rest(payments, cursor), e, p, limit);
    var merged := SortRows(e + p);
    var page := merged[..Min(limit, |merged|)];
    MergeTop(Rest(expenses, cursor), Rest(payments, cursor), e, p, limit, page);
    TopUnique(page, Query(expenses + payments, cursor, limit), Rest(expenses + payments, cursor), limit);
  }

  /** The order and the cursor's bound in createdAt and id alone. */
  lemma TopSpelledOut(rows: seq<Entry>, all: set<Entry>, n: nat)
    requires Top(rows, all, n)
    ensures |rows| == (if |all| < n then |all| else n) && forall x :: x in rows ==> x in all
    ensures forall i, j :: 0 <= i < j < |rows| ==>
                rows[i].createdAt > rows[j].createdAt
                || (rows[i].createdAt == rows[j].createdAt && Less(rows[j].id, rows[i].id))
    ensures forall x, y :: x in rows && y in all && y !in rows ==>
                             x.createdAt > y.createdAt || (x.createdAt == y.createdAt && Less(y.id, x.id))
  {
    hide Less;
    assert forall x :: x in rows <==> x in SetOf(rows);
    forall x, y | x in rows && y in all && y !in rows
      ensures Newer(x, y)
    {
      assert y in all - SetOf(rows);
    }
  }

  /**
   In createdAt and id alone: a page lists rows below the cursor, as many as the limit allows,
   later times first and on one time larger ids first, and ahead of every row it leaves out.
   */
  lemma PageNewestFirst(expenses: set<Entry>, payments: set<Entry>, cursor: Option<Cursor>, limit: nat)
    requires Keyed(expenses + payments) && expenses !! payments
    ensures var entries := LedgerPage(expenses, payments, cursor, limit).entries;
            var left := set x | x in expenses + payments
                && (cursor.Some? ==>
                      x.createdAt < cursor.value.t
                      || (x.createdAt == cursor.value.t && Less(x.id, cursor.value.id)));
            && |entries| == (if |left| < limit then |left| else limit) && (forall x :: x in entries ==> x in left)
            && (forall i, j :: 0 <= i < j < |entries| ==>
                  entries[i].createdAt > entries[j].createdAt
                  || (entries[i].createdAt == entries[j].createdAt && Less(entries[j].id, entries[i].id)))
            && (forall x, y :: x in entries && y in left && y !in entries ==>
                  x.createdAt > y.createdAt || (x.createdAt == y.createdAt && Less(y.id, x.id)))
  {
    hide Keyed, LedgerPage, Query, Less, Newer, Below, Rest, Top;
    PageIsSlice(expenses, payments, cursor, limit);
    QueryTop(expenses + payments, cursor, limit);
    RestSpelledOut(expenses + payments, cursor);
    TopSpelledOut(LedgerPage(expenses, payments, cursor, limit).entries, Rest(expenses + payments, cursor), limit);
  }

  lemma RestSpelledOut(rows: set<Entry>, cursor: Option<Cursor>)
    ensures Rest(rows, cursor)
         == set x | x in rows
                && (cursor.Some? ==>
                      x.createdAt < cursor.value.t
                      || (x.createdAt == cursor.value.t && Less(x.id, cursor.value.id)))
  {
    hide Less;
  }

  lemma QueriesTop(expenses: set<Entry>, payments: set<Entry>, cursor: Option<Cursor>, limit: nat)
    requires Keyed(expenses + payments) && expenses !! payments
    ensures Top(Query(expenses, cursor, limit + 1), Rest(expenses, cursor), limit + 1)
    ensures Top(Query(payments, cursor, limit + 1), Rest(payments, cursor), limit + 1)
    ensures Top(Query(expenses + payments, cursor, limit), Rest(expenses, cursor) + Rest(payments, cursor), limit)
    ensures Rest(expenses + payments, cursor) == Rest(expenses, cursor) + Rest(payments, cursor)
    ensures Rest(expenses, cursor) !! Rest(payments, cursor) && Keyed(Rest(expenses, cursor) + Rest(payments, cursor))
  {
    hide Newer, Keyed, Below, Sorted, Query, Top, Rest;
    KeyedPart(expenses + payments, expenses);
    KeyedPart(expenses + payments, payments);
    QueryTop(expenses, cursor, limit + 1);
    QueryTop(payments, cursor, limit + 1);
    QueryTop(expenses + payments, cursor, limit);
    RestUnion(expenses, payments, cursor);
    RestApart(expenses, payments, cursor);
    KeyedPart(expenses + payments, Rest(expenses, cursor) + Rest(payments, cursor));
  }

  lemma RestApart(a: set<Entry>, b: set<Entry>, cursor: Option<Cursor>)
    requires a !! b
    ensures Rest(a, cursor) !! Rest(b, cursor) && Rest(a, cursor) <= a && Rest(b, cursor) <= b
  {
  }

  lemma MergedSorted(expenses: set<Entry>, payments: set<Entry>, e: seq<Entry>, p: seq<Entry>)
    requires Keyed(expenses + payments) && expenses !! payments
    requires Sorted(e) && Sorted(p) && SetOf(e) <= expenses && SetOf(p) <= payments
    ensures Sorted(SortRows(e + p)) && SetOf(SortRows(e + p)) == SetOf(e) + SetOf(p)
  {
    hide Newer, Keyed, Sorted;
    SortedDistinct(e);
    SortedDistinct(p);
    assert SetOf(e + p) == SetOf(e) + SetOf(p);
    forall i, j | 0 <= i < |e| && 0 <= j < |p|
      ensures e[i] != p[j]
    {
      assert e[i] in SetOf(e) && p[j] in SetOf(p);
    }
    KeyedPart(expenses + payments, SetOf(e + p));
    SortSorts(e + p);
  }

  // ---------- the walk ----------

  /** What a page leaves: exactly the rows it did not list, in the same order. */
  lemma AfterPage(rows: set<Entry>, cursor: Option<Cursor>, limit: nat)
    requires Keyed(rows) && |Rest(rows, cursor)| > limit > 0
    ensures var all := Descending(Rest(rows, cursor));
            var next := Some(CursorOf(Query(rows, cursor, limit)[limit - 1]));
            Descending(Rest(rows, next)) == all[limit..] && |Rest(rows, next)| == |Rest(rows, cursor)| - limit
  {
    hide Newer, Keyed, Below, Descending, Sorted;
    var all := Descending(Rest(rows, cursor));
    var next := Some(CursorOf(all[limit - 1]));
    KeyedPart(rows, Rest(rows, cursor));
    KeyedPart(rows, Rest(rows, next));
    DescendingSorted(Rest(rows, cursor));
    DescendingSorted(Rest(rows, next));
    SuffixSorted(all, limit);
    LeftAfter(rows, cursor, all, limit);
    SortedUnique(Descending(Rest(rows, next)), all[limit..]);
  }

  lemma SuffixSorted(all: seq<Entry>, n: nat)
    requires Sorted(all) && n <= |all|
    ensures Sorted(all[n..])
  {
    hide Newer;
    forall i, j | 0 <= i < j < |all[n..]|
      ensures Newer(all[n..][i], all[n..][j])
    {
      assert Newer(all[n + i], all[n + j]);
    }
  }

  lemma LeftAfter(rows: set<Entry>, cursor: Option<Cursor>, all: seq<Entry>, limit: nat)
    requires Sorted(all) && SetOf(all) == Rest(rows, cursor) && 0 < limit < |all|
    ensures Rest(rows, Some(CursorOf(all[limit - 1]))) == SetOf(all[limit..])
  {
    hide Sorted, SetOf;
    var last := all[limit - 1];
    var next := Some(CursorOf(last));
    forall x
      ensures x in Rest(rows, next) <==> x in SetOf(all[limit..])
    {
      if x in Rest(rows, next) { BelowLast(rows, cursor, all, limit, x); }
      if x in SetOf(all[limit..]) { BelongsBelow(rows, cursor, all, limit, x); }
    }
  }

  lemma BelowLast(rows: set<Entry>, cursor: Option<Cursor>, all: seq<Entry>, limit: nat, x: Entry)
    requires Sorted(all) && SetOf(all) == Rest(rows, cursor) && 0 < limit < |all|
    requires x in rows && Newer(all[limit - 1], x)
    ensures x in SetOf(all[limit..])
  {
    hide Newer;
    var last := all[limit - 1];
    assert last in SetOf(all);
    if cursor.Some? { NewerThanCursor(cursor.value, last, x); }
    assert x in SetOf(all);
    var i :| 0 <= i < |all| && all[i] == x;
    NotBefore(all, limit - 1, i);
    assert all[limit..][i - limit] == x;
  }

  lemma NewerThanCursor(c: Cursor, last: Entry, x: Entry)
    requires Below(last, Some(c)) && Newer(last, x)
    ensures Below(x, Some(c))
  {
    hide Newer;
    NewerTransitive(Entry(Expense, c.t, c.id), last, x);
  }

  lemma NotBefore(all: seq<Entry>, k: nat, i: nat)
    requires Sorted(all) && k < |all| && i < |all| && Newer(all[k], all[i])
    ensures i > k
  {
    hide Newer;
    NewerAsymmetric(all[k], all[i]);
  }

  lemma BelongsBelow(rows: set<Entry>, cursor: Option<Cursor>, all: seq<Entry>, limit: nat, x: Entry)
    requires Sorted(all) && SetOf(all) == Rest(rows, cursor) && 0 < limit < |all| && x in SetOf(all[limit..])
    ensures x in Rest(rows, Some(CursorOf(all[limit - 1])))
  {
    var i :| 0 <= i < |all[limit..]| && all[limit..][i] == x;
    assert all[limit + i] == x && x in SetOf(all);
    assert Newer(all[limit - 1], all[limit + i]);
  }

  /** A last page lists all that is left, any other the first rows of it and leaves the others. */
  ghost predicate Shrinks(rows: set<Entry>, page: Page, cursor: Option<Cursor>, limit: nat) {
    var all := Descending(Rest(rows, cursor));
    if page.nextCursor.None? then page.entries == all
    else |all| > limit && page.entries == all[..limit] && Descending(Rest(rows, page.nextCursor)) == all[limit..]
         && |Rest(rows, page.nextCursor)| < |Rest(rows, cursor)|
  }

  /** The walk ends: each page with a next cursor leaves less. */
  lemma PageShrinks(expenses: set<Entry>, payments: set<Entry>, cursor: Option<Cursor>, limit: nat)
    requires Keyed(expenses + payments) && expenses !! payments && limit > 0
    ensures Shrinks(expenses + payments, LedgerPage(expenses, payments, cursor, limit), cursor, limit)
  {
    hide Newer, Keyed, Below, Sorted, Rest, LedgerPage, Descending;
    PageIsSlice(expenses, payments, cursor, limit);
    if |Rest(expenses + payments, cursor)| > limit { AfterPage(expenses + payments, cursor, limit); }
  }

  /** Every page, one after the other. */
  ghost function Walk(expenses: set<Entry>, payments: set<Entry>, cursor: Option<Cursor>, limit: nat): seq<Entry>
    requires Keyed(expenses + payments) && expenses !! payments && limit > 0
    decreases |Rest(expenses + payments, cursor)|
  {
    var page := LedgerPage(expenses, payments, cursor, limit);
    if page.nextCursor.None? then page.entries
    else
      PageShrinks(expenses, payments, cursor, limit);
      page.entries + Walk(expenses, payments, page.nextCursor, limit)
  }

  /**
   Walking page by page lists exactly the rows below the cursor in descending order: no gap, no
   repeat, and an end when nothing is left.
   */
  lemma {:induction false} WalkIsSorted(expenses: set<Entry>, payments: set<Entry>, cursor: Option<Cursor>, limit: nat)
    requires Keyed(expenses + payments) && expenses !! payments && limit > 0
    ensures Walk(expenses, payments, cursor, limit) == Descending(Rest(expenses + payments, cursor))
    decreases |Rest(expenses + payments, cursor)|
  {
    hide Newer, Keyed, Rest, LedgerPage, Descending;
    PageShrinks(expenses, payments, cursor, limit);
    var page := LedgerPage(expenses, payments, cursor, limit);
    if page.nextCursor.Some? {
      var all := Descending(Rest(expenses + payments, cursor));
      WalkIsSorted(expenses, payments, page.nextCursor, limit);
      assert all == all[..limit] + all[limit..];
    }
  }

  /** The walk from the top lists every row once, later times first and on one time larger ids first. */
  lemma WholeWalk(expenses: set<Entry>, payments: set<Entry>, limit: nat)
    requires Keyed(expenses + payments) && expenses !! payments && limit > 0
    ensures var walk := Walk(expenses, payments, None, limit);
            && (forall x :: x in walk <==> x in expenses + payments) && |walk| == |expenses| + |payments|
            && forall i, j :: 0 <= i < j < |walk| ==>
                 walk[i].createdAt > walk[j].createdAt
                 || (walk[i].createdAt == walk[j].createdAt && Less(walk[j].id, walk[i].id))
  {
    hide Keyed, Newer, Less, Sorted, Top;
    var all := expenses + payments;
    WalkIsSorted(expenses, payments, None, limit);
    RestSpelledOut(all, None);
    assert Rest(all, None) == all;
    DescendingSorted(all);
    DescendingTop(all);
    TopSpelledOut(Descending(all), all, |all|);
    forall x
      ensures x in Descending(all) <==> x in all
    {
      InSet(x, Descending(all));
    }
  }

  lemma DescendingTop(rows: set<Entry>)
    requires Sorted(Descending(rows))
    ensures Top(Descending(rows), rows, |rows|)
  {
    hide Sorted, Descending;
  }

  // ---------- inserts during the walk ----------

  /** A walk over growing tables: `inserts[k]` commit between page k and page k + 1. */
  ghost function LiveWalk(expenses: set<Entry>, payments: set<Entry>, cursor: Option<Cursor>, limit: nat,
                          inserts: seq<(set<Entry>, set<Entry>)>): seq<Entry>
    requires Keyed(expenses + payments) && expenses !! payments && limit > 0
    decreases |inserts|
  {
    var page := LedgerPage(expenses, payments, cursor, limit);
    if page.nextCursor.None? then page.entries
    else if inserts == [] then page.entries + Walk(expenses, payments, page.nextCursor, limit)
    else
      var e, p := expenses + inserts[0].0, payments + inserts[0].1;
      if Keyed(e + p) && e !! p then page.entries + LiveWalk(e, p, page.nextCursor, limit, inserts[1..]) else []
  }

  /** Every insert commits above the cursor the walk has reached. */
  ghost predicate Above(expenses: set<Entry>, payments: set<Entry>, cursor: Option<Cursor>, limit: nat,
                        inserts: seq<(set<Entry>, set<Entry>)>)
    decreases |inserts|
  {
    var next := LedgerPage(expenses, payments, cursor, limit).nextCursor;
    next.Some? && inserts != [] ==>
      var e, p := expenses + inserts[0].0, payments + inserts[0].1;
      && Keyed(e + p) && e !! p
      && (forall x :: x in inserts[0].0 + inserts[0].1 ==> !Below(x, next))
      && Above(e, p, next, limit, inserts[1..])
  }

  lemma InsertsUnseen(expenses: set<Entry>, payments: set<Entry>, moreExpenses: set<Entry>, morePayments: set<Entry>,
                      cursor: Option<Cursor>)
    requires forall x :: x in moreExpenses + morePayments ==> !Below(x, cursor)
    ensures Rest((expenses + moreExpenses) + (payments + morePayments), cursor) == Rest(expenses + payments, cursor)
  {
    hide Below;
  }

  /** Inserts above the cursor do not disturb the rest of the walk. */
  lemma {:induction false} InsertsAboveAreInvisible(expenses: set<Entry>, payments: set<Entry>, cursor: Option<Cursor>,
                                                    limit: nat,
                                                   inserts: seq<(set<Entry>, set<Entry>)>)
    requires Keyed(expenses + payments) && expenses !! payments && limit > 0
    requires Above(expenses, payments, cursor, limit, inserts)
    ensures LiveWalk(expenses, payments, cursor, limit, inserts) == Walk(expenses, payments, cursor, limit)
    decreases |inserts|
  {
    hide Newer, Keyed, Rest, LedgerPage, Descending, Below, Walk;
    var next := LedgerPage(expenses, payments, cursor, limit).nextCursor;
    WalkUnfolds(expenses, payments, cursor, limit);
    if next.Some? && inserts != [] {
      var e, p := expenses + inserts[0].0, payments + inserts[0].1;
      InsertsAboveAreInvisible(e, p, next, limit, inserts[1..]);
      WalkIsSorted(e, p, next, limit);
      WalkIsSorted(expenses, payments, next, limit);
      InsertsUnseen(expenses, payments, inserts[0].0, inserts[0].1, next);
    }
  }

  lemma WalkUnfolds(expenses: set<Entry>, payments: set<Entry>, cursor: Option<Cursor>, limit: nat)
    requires Keyed(expenses + payments) && expenses !! payments && limit > 0
    ensures var page := LedgerPage(expenses, payments, cursor, limit);
            Walk(expenses, payments, cursor, limit) ==
              if page.nextCursor.None? then page.entries
                else page.entries + Walk(expenses, payments, page.nextCursor, limit)
  {
    hide Newer, Keyed, Rest, LedgerPage, Descending, Below;
  }
}
