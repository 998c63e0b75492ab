/**
 Key-order independent request identity (apps/api/src/lib/request-hash.ts).  The digest of the
 serialised value is left as any injective function of the canonical value.
 */
module RequestHash {
  import opened Text
  import opened Sums

  /** A JSON value; an object is its entries in property order. */
  datatype Json =
    | Null
    | Bool(b: bool)
    | Num(n: int)
    | Str(s: string)
    | Arr(items: seq<Json>)
    | Obj(entries: seq<Entry>)

  datatype Entry = Entry(key: string, value: Json)

  function Keys(entries: seq<Entry>): seq<string> {
    seq(|entries|, i requires 0 <= i < |entries| => entries[i].key)
  }

  /** Property names within one object are distinct. */
  predicate WellFormed(v: Json) {
    match v
    case Arr(items) => forall i :: 0 <= i < |items| ==> WellFormed(items[i])
    case Obj(entries) => Distinct(Keys(entries)) && forall i :: 0 <= i < |entries| ==> WellFormed(entries[i].value)
    case _ => true
  }

  function Insert(e: Entry, sorted: seq<Entry>): (r: seq<Entry>)
    ensures |r| == |sorted| + 1 && forall x :: x in r <==> x == e || x in sorted
  {
    if sorted == [] then [e]
    else if Less(e.key, sorted[0].key) then [e] + sorted
    else
      var rest := Insert(e, sorted[1..]);
      assert forall x :: x in sorted <==> x == sorted[0] || x in sorted[1..];
      [sorted[0]] + rest
  }

  /** `.sort(([a], [b]) => (a < b ? -1 : 1))` on distinct names. */
  function SortEntries(entries: seq<Entry>): (r: seq<Entry>)
    ensures |r| == |entries| && forall x :: x in r <==> x in entries
  {
    if entries == [] then []
    else
      assert forall x :: x in entries <==> x == entries[0] || x in entries[1..];
      Insert(entries[0], SortEntries(entries[1..]))
  }

  function Canonicalize(v: Json): Json {
    match v
    case Arr(items) => Arr(seq(|items|, i requires 0 <= i < |items| => Canonicalize(items[i])))
    case Obj(entries) =>
      var sorted := SortEntries(entries);
      Obj(seq(|sorted|, i requires 0 <= i < |sorted| =>
        assert sorted[i] in entries;
        Entry(sorted[i].key, Canonicalize(sorted[i].value))))
    case _ => v
  }

  /** Equal except for the order of object entries, at any depth. */
  predicate Same(a: Json, b: Json)
    decreases a
  {
    match a
    case Arr(items) =>
      b.Arr? && |items| == |b.items| && forall i :: 0 <= i < |items| ==> Same(items[i], b.items[i])
    case Obj(entries) =>
      b.Obj? && |entries| == |b.entries|
      && forall i :: 0 <= i < |entries| ==> Matched(entries[i], b.entries)
    case _ => a == b
  }

  predicate Matched(e: Entry, fs: seq<Entry>)
    decreases e
  {
    exists j :: 0 <= j < |fs| && e.key == fs[j].key && Same(e.value, fs[j].value)
  }

  // ---------- sorted names ----------

  predicate Sorted(keys: seq<string>) {
    forall i, j :: 0 <= i < j < |keys| ==> Less(keys[i], keys[j])
  }

  lemma KeyIn(entries: seq<Entry>, key: string)
    ensures key in Keys(entries) <==> exists e :: e in entries && e.key == key
  {
    if key in Keys(entries) {
      var i :| 0 <= i < |entries| && Keys(entries)[i] == key;
      assert entries[i] in entries;
    }
    if exists e :: e in entries && e.key == key {
      var e :| e in entries && e.key == key;
      var i :| 0 <= i < |entries| && entries[i] == e;
      assert Keys(entries)[i] == key;
    }
  }

  lemma {:induction false} InsertSorted(e: Entry, sorted: seq<Entry>)
    requires Sorted(Keys(sorted)) && e.key !in Keys(sorted)
    ensures Sorted(Keys(Insert(e, sorted)))
  {
    hide Less;
    if sorted != [] {
      var head, rest := sorted[0], sorted[1..];
      assert Keys(sorted) == [head.key] + Keys(rest);
      SortedTail(sorted);
      if Less(e.key, head.key) {
        forall k | k in Keys(sorted)
          ensures Less(e.key, k)
        {
          if k != head.key { LessTransitive(e.key, head.key, k); }
        }
        PrependSorted(e, sorted);
      } else {
        LessTotal(e.key, head.key);
        InsertSorted(e, rest);
        forall k | k in Keys(Insert(e, rest))
          ensures Less(head.key, k)
        {
          if k != e.key { InsertedKeys(e, rest, k); }
        }
        PrependSorted(head, Insert(e, rest));
      }
    }
  }

  lemma SortedTail(sorted: seq<Entry>)
    requires sorted != [] && Sorted(Keys(sorted))
    ensures Sorted(Keys(sorted[1..])) && forall k :: k in Keys(sorted[1..]) ==> Less(sorted[0].key, k)
  {
    hide Less;
    var keys, rest := Keys(sorted), Keys(sorted[1..]);
    assert keys == [sorted[0].key] + rest;
    forall i | 0 <= i < |rest|
      ensures Less(sorted[0].key, rest[i])
    {
      assert Less(keys[0], keys[i + 1]);
    }
    forall i, j | 0 <= i < j < |rest|
      ensures Less(rest[i], rest[j])
    {
      assert Less(keys[i + 1], keys[j + 1]);
    }
  }

  lemma InsertedKeys(e: Entry, sorted: seq<Entry>, k: string)
    requires k in Keys(Insert(e, sorted)) && k != e.key
    ensures k in Keys(sorted)
  {
    hide Less;
    var r := Insert(e, sorted);
    var i :| 0 <= i < |r| && Keys(r)[i] == k;
    assert r[i] in r && r[i] in sorted;
    var j :| 0 <= j < |sorted| && sorted[j] == r[i];
    assert Keys(sorted)[j] == k;
  }

  lemma PrependSorted(e: Entry, sorted: seq<Entry>)
    requires Sorted(Keys(sorted)) && forall k :: k in Keys(sorted) ==> Less(e.key, k)
    ensures Sorted(Keys([e] + sorted))
  {
    hide Less;
    assert Keys([e] + sorted) == [e.key] + Keys(sorted);
  }

  lemma {:induction false} SortSorts(entries: seq<Entry>)
    requires Distinct(Keys(entries))
    ensures Sorted(Keys(SortEntries(entries)))
    decreases |entries|
  {
    hide Less, Insert, Sorted;
    if entries == [] {
      NoKeys();
    } else {
      var e, rest := entries[0], entries[1..];
      assert forall i :: 0 <= i < |rest| ==> Keys(rest)[i] == Keys(entries)[i + 1];
      assert Keys(entries)[0] == e.key && e.key !in Keys(rest);
      SortSorts(rest);
      KeyIn(rest, e.key);
      KeyIn(SortEntries(rest), e.key);
      InsertSorted(e, SortEntries(rest));
    }
  }

  lemma NoKeys()
    ensures Sorted(Keys([]))
  {
  }

  /** A set of names has one sorted listing. */
  lemma {:induction false} SortedUnique(a: seq<string>, b: seq<string>)
    requires Sorted(a) && Sorted(b) && SetOf(a) == SetOf(b)
    ensures a == b
    decreases |a|
  {
    hide Less;
    assert forall x :: x in a <==> x in SetOf(a);
    assert forall x :: x in b <==> x in SetOf(b);
    if a != [] && b != [] {
      SameFirst(a, b);
      SortedRest(a);
      SortedRest(b);
      assert a == [a[0]] + a[1..] && b == [b[0]] + b[1..];
      assert SetOf(a[1..]) == SetOf(a) - {a[0]} && SetOf(b[1..]) == SetOf(b) - {b[0]};
      SortedUnique(a[1..], b[1..]);
    } else {
      EmptySet(a);
      EmptySet(b);
    }
  }

  lemma SortedRest(a: seq<string>)
    requires a != [] && Sorted(a)
    ensures Sorted(a[1..]) && a[0] !in a[1..]
  {
    hide Less;
    forall i | 0 <= i < |a[1..]|
      ensures a[1..][i] != a[0]
    {
      LessIrreflexive(a[0]);
      assert a[1..][i] == a[i + 1];
    }
  }

  lemma SameFirst(a: seq<string>, b: seq<string>)
    requires a != [] && b != [] && Sorted(a) && Sorted(b) && a[0] in b && b[0] in a
    ensures a[0] == b[0]
  {
    hide Less;
    var i :| 0 <= i < |b| && b[i] == a[0];
    var j :| 0 <= j < |a| && a[j] == b[0];
    if i > 0 && j > 0 { LessAsymmetric(a[0], b[0]); }
  }

  // ---------- the hash tells exactly what is the same ----------

  lemma DistinctIndex(entries: seq<Entry>, i: nat, j: nat)
    requires Distinct(Keys(entries)) && i < |entries| && j < |entries| && entries[i].key == entries[j].key
    ensures i == j
  {
    assert Keys(entries)[i] == Keys(entries)[j];
  }

  /** Objects that match entry by entry have the same names. */
  lemma SameKeys(es: seq<Entry>, fs: seq<Entry>)
    requires Distinct(Keys(es)) && Distinct(Keys(fs)) && |es| == |fs|
    requires forall i :: 0 <= i < |es| ==> es[i].key in Keys(fs)
    ensures Keys(SortEntries(es)) == Keys(SortEntries(fs))
  {
    hide Less, SortEntries, Sorted, Distinct;
    var a, b := Keys(es), Keys(fs);
    DistinctSize(a);
    DistinctSize(b);
    forall k | k in SetOf(a)
      ensures k in SetOf(b)
    {
      var i :| 0 <= i < |es| && a[i] == k;
      assert es[i].key in b;
    }
    SameSizeSubset(SetOf(a), SetOf(b));
    SortSorts(es);
    SortSorts(fs);
    SortedKeySet(es);
    SortedKeySet(fs);
    SortedUnique(Keys(SortEntries(es)), Keys(SortEntries(fs)));
  }

  lemma MatchedKeys(es: seq<Entry>, fs: seq<Entry>)
    requires Distinct(Keys(es)) && Distinct(Keys(fs)) && |es| == |fs|
    requires forall i :: 0 <= i < |es| ==> Matched(es[i], fs)
    ensures Keys(SortEntries(es)) == Keys(SortEntries(fs))
  {
    hide Same, Distinct, SortEntries;
    forall i | 0 <= i < |es|
      ensures es[i].key in Keys(fs)
    {
      assert Matched(es[i], fs);
      var j :| 0 <= j < |fs| && es[i].key == fs[j].key && Same(es[i].value, fs[j].value);
      assert Keys(fs)[j] == es[i].key;
    }
    SameKeys(es, fs);
  }

  lemma SortedKeySet(entries: seq<Entry>)
    ensures SetOf(Keys(SortEntries(entries))) == SetOf(Keys(entries))
  {
    hide SortEntries, Keys;
    forall k
      ensures k in Keys(SortEntries(entries)) <==> k in Keys(entries)
    {
      KeyIn(entries, k);
      KeyIn(SortEntries(entries), k);
    }
  }

  /** One name's values in two matching objects. */
  lemma SameAt(es: seq<Entry>, fs: seq<Entry>, e: Entry, f: Entry)
    requires Distinct(Keys(fs)) && e in es && f in fs && e.key == f.key
    requires forall i :: 0 <= i < |es| ==> Matched(es[i], fs)
    ensures Same(e.value, f.value)
  {
    hide Same, Distinct;
    var i :| 0 <= i < |es| && es[i] == e;
    assert Matched(es[i], fs);
    var j :| 0 <= j < |fs| && es[i].key == fs[j].key && Same(es[i].value, fs[j].value);
    var k :| 0 <= k < |fs| && fs[k] == f;
    DistinctIndex(fs, j, k);
  }

  lemma {:induction false} SameCanonicalizes(a: Json, b: Json)
    requires WellFormed(a) && WellFormed(b) && Same(a, b)
    ensures Canonicalize(a) == Canonicalize(b)
    decreases a
  {
    hide SortEntries, Distinct;
    match a
    case Arr(items) =>
      forall i | 0 <= i < |items| { SameCanonicalizes(items[i], b.items[i]); }
    case Obj(es) =>
      var fs := b.entries;
      assert Distinct(Keys(es)) && Distinct(Keys(fs));
      MatchedKeys(es, fs);
      var s, t := SortEntries(es), SortEntries(fs);
      forall i | 0 <= i < |s|
        ensures s[i].key == t[i].key && Canonicalize(s[i].value) == Canonicalize(t[i].value)
      {
        assert Keys(s)[i] == Keys(t)[i];
        assert s[i] in es && t[i] in fs;
        SameAt(es, fs, s[i], t[i]);
        SameCanonicalizes(s[i].value, t[i].value);
      }
    case _ =>
  }

  lemma {:induction false} CanonicalIsSame(a: Json, b: Json)
    requires Canonicalize(a) == Canonicalize(b)
    ensures Same(a, b)
    decreases a
  {
    hide SortEntries;
    match a
    case Arr(items) =>
      forall i | 0 <= i < |items|
        ensures Same(items[i], b.items[i])
      {
        assert Canonicalize(a).items[i] == Canonicalize(b).items[i];
        CanonicalIsSame(items[i], b.items[i]);
      }
    case Obj(es) =>
      var fs := b.entries;
      var s, t := SortEntries(es), SortEntries(fs);
      forall i | 0 <= i < |es|
        ensures Matched(es[i], fs)
      {
        assert es[i] in s;
        var k :| 0 <= k < |s| && s[k] == es[i];
        assert Canonicalize(a).entries[k] == Canonicalize(b).entries[k];
        assert t[k] in fs;
        var j :| 0 <= j < |fs| && fs[j] == t[k];
        CanonicalIsSame(es[i].value, fs[j].value);
      }
    case _ =>
  }

  /**
   Two requests have one canonical form, and so one hash, if and only if they are equal up to
   the order of object entries.
   */
  lemma HashTellsSame(a: Json, b: Json, digest: Json -> string)
    requires WellFormed(a) && WellFormed(b) && forall x, y :: digest(x) == digest(y) ==> x == y
    ensures digest(Canonicalize(a)) == digest(Canonicalize(b)) <==> Same(a, b)
  {
    hide Canonicalize, Same, WellFormed;
    if digest(Canonicalize(a)) == digest(Canonicalize(b)) { CanonicalIsSame(a, b); }
    if Same(a, b) { SameCanonicalizes(a, b); }
  }
}
