/** Sums of integer values over finite sets of keys, independent of any enumeration order. */
module Sums {

  ghost function Sum<K>(keys: set<K>, f: map<K, int>): int
    requires keys <= f.Keys
    decreases |keys|
  {
    if keys == {} then 0
    else
      var k :| k in keys;
      f[k] + Sum(keys - {k}, f)
  }

  /** All the values of a map. */
  ghost function Total<K>(f: map<K, int>): int {
    Sum(f.Keys, f)
  }

  /** Any key may be taken out first. */
  lemma {:induction false} SumTake<K>(keys: set<K>, f: map<K, int>, x: K)
    requires keys <= f.Keys && x in keys
    ensures Sum(keys, f) == f[x] + Sum(keys - {x}, f)
    decreases |keys|
  {
    var k :| k in keys && Sum(keys, f) == f[k] + Sum(keys - {k}, f);
    if k != x {
      SumTake(keys - {k}, f, x);
      SumTake(keys - {x}, f, k);
      assert keys - {k} - {x} == keys - {x} - {k};
    }
  }

  lemma SumEmpty<K>(f: map<K, int>)
    ensures Sum({}, f) == 0
    ensures f == map[] ==> Total(f) == 0
  {
    if f == map[] { assert f.Keys == {}; }
  }

  lemma SumAdd<K>(keys: set<K>, f: map<K, int>, x: K)
    requires keys <= f.Keys && x in f && x !in keys
    ensures Sum(keys + {x}, f) == Sum(keys, f) + f[x]
  {
    SumTake(keys + {x}, f, x);
    assert keys + {x} - {x} == keys;
  }

  lemma {:induction false} SumAgree<K>(keys: set<K>, f: map<K, int>, g: map<K, int>)
    requires keys <= f.Keys && keys <= g.Keys && forall k :: k in keys ==> f[k] == g[k]
    ensures Sum(keys, f) == Sum(keys, g)
    decreases |keys|
  {
    if keys != {} {
      var k :| k in keys;
      SumTake(keys, f, k);
      SumTake(keys, g, k);
      SumAgree(keys - {k}, f, g);
    }
  }

  /** A fresh entry adds its value. */
  lemma TotalInsert<K>(f: map<K, int>, x: K, v: int)
    requires x !in f
    ensures Total(f[x := v]) == Total(f) + v
  {
    var g := f[x := v];
    assert g.Keys == f.Keys + {x};
    SumAdd(f.Keys, g, x);
    SumAgree(f.Keys, f, g);
  }

  lemma TotalUpdate<K>(f: map<K, int>, x: K, v: int)
    ensures Total(f[x := v]) == Total(f) - (if x in f then f[x] else 0) + v
  {
    var g := f[x := v];
    if x in f {
      assert g.Keys == f.Keys;
      SumTake(f.Keys, f, x);
      SumTake(f.Keys, g, x);
      SumAgree(f.Keys - {x}, f, g);
    } else {
      TotalInsert(f, x, v);
    }
  }

  /** Only one term counts. */
  lemma SumSingle<K>(keys: set<K>, f: map<K, int>, x: K)
    requires keys <= f.Keys && x in keys && forall k :: k in keys && k != x ==> f[k] == 0
    ensures Sum(keys, f) == f[x]
  {
    SumTake(keys, f, x);
    SumZero(keys - {x}, f);
  }

  lemma {:induction false} SumUnion<K>(a: set<K>, b: set<K>, f: map<K, int>)
    requires a + b <= f.Keys && a !! b
    ensures Sum(a + b, f) == Sum(a, f) + Sum(b, f)
    decreases |a|
  {
    if a == {} {
      assert a + b == b;
    } else {
      var k :| k in a;
      SumTake(a, f, k);
      SumTake(a + b, f, k);
      assert a + b - {k} == (a - {k}) + b;
      SumUnion(a - {k}, b, f);
    }
  }

  lemma {:induction false} SumConst<K>(keys: set<K>, f: map<K, int>, c: int)
    requires keys <= f.Keys && forall k :: k in keys ==> f[k] == c
    ensures Sum(keys, f) == c * |keys|
    decreases |keys|
  {
    if keys != {} {
      var k :| k in keys;
      SumTake(keys, f, k);
      SumConst(keys - {k}, f, c);
      assert |keys| == |keys - {k}| + 1;
      OneMore(c, |keys - {k}|);
    }
  }

  lemma OneMore(c: int, n: int)
    ensures c * (n + 1) == c * n + c
  {
  }

  /** Terms that are all non-negative sum to zero only when each is zero. */
  lemma {:induction false} SumZero<K>(keys: set<K>, f: map<K, int>)
    requires keys <= f.Keys && forall k :: k in keys ==> f[k] >= 0
    ensures Sum(keys, f) >= 0
    ensures Sum(keys, f) == 0 <==> forall k :: k in keys ==> f[k] == 0
    decreases |keys|
  {
    if keys != {} {
      var k :| k in keys;
      SumTake(keys, f, k);
      SumZero(keys - {k}, f);
    }
  }

  lemma {:induction false} SumPlus<K>(keys: set<K>, f: map<K, int>, g: map<K, int>, h: map<K, int>)
    requires keys <= f.Keys && keys <= g.Keys && keys <= h.Keys
    requires forall k :: k in keys ==> h[k] == f[k] + g[k]
    ensures Sum(keys, h) == Sum(keys, f) + Sum(keys, g)
    decreases |keys|
  {
    if keys != {} {
      var k :| k in keys;
      SumTake(keys, f, k);
      SumTake(keys, g, k);
      SumTake(keys, h, k);
      SumPlus(keys - {k}, f, g, h);
    }
  }

  // ---------- enumerations ----------

  predicate Distinct<T(==)>(s: seq<T>) {
    forall i, j :: 0 <= i < j < |s| ==> s[i] != s[j]
  }

  function SetOf<T>(s: seq<T>): set<T> {
    set x | x in s
  }

  lemma SetCons<T>(x: T, s: seq<T>)
    ensures SetOf([x] + s) == {x} + SetOf(s)
  {
  }

  lemma {:induction false} DistinctSize<T>(s: seq<T>)
    ensures |SetOf(s)| <= |s|
    ensures |SetOf(s)| == |s| <==> Distinct(s)
  {
    if s != [] {
      var front, x := s[..|s| - 1], s[|s| - 1];
      assert s == front + [x];
      DistinctSize(front);
      assert SetOf(s) == SetOf(front) + {x};
      if x in front {
        assert SetOf(s) == SetOf(front);
        var i :| 0 <= i < |front| && front[i] == x;
        assert s[i] == s[|s| - 1];
      } else {
        assert |SetOf(s)| == |SetOf(front)| + 1;
        if Distinct(s) {
          assert forall i, j :: 0 <= i < j < |front| ==> front[i] == s[i] && front[j] == s[j];
        }
      }
    }
  }

  // ---------- sums by group ----------

  ghost function Fiber<K, G>(keys: set<K>, part: map<K, G>, g: G): set<K>
    requires keys <= part.Keys
  {
    set k | k in keys && part[k] == g
  }

  /** Each group's subtotal. */
  ghost function Subtotals<K, G>(keys: set<K>, f: map<K, int>, part: map<K, G>, groups: set<G>): map<G, int>
    requires keys <= f.Keys && keys <= part.Keys
  {
    map g | g in groups :: Sum(Fiber(keys, part, g), f)
  }

  lemma {:induction false} SumByGroup<K, G>(keys: set<K>, f: map<K, int>, part: map<K, G>, groups: set<G>)
    requires keys <= f.Keys && keys <= part.Keys && forall k :: k in keys ==> part[k] in groups
    ensures Sum(keys, f) == Total(Subtotals(keys, f, part, groups))
    decreases |groups|
  {
    hide Sum, Subtotals;
    if groups == {} {
      assert keys == {};
      SubtotalsKeys(keys, f, part, groups);
      SumEmpty(f);
      SumEmpty(Subtotals(keys, f, part, groups));
    } else {
      var g :| g in groups;
      var fiber := Fiber(keys, part, g);
      var rest := keys - fiber;
      var all, less := Subtotals(keys, f, part, groups), Subtotals(rest, f, part, groups - {g});
      SumByGroup(rest, f, part, groups - {g});
      SumUnion(fiber, rest, f);
      assert fiber + rest == keys;
      SubtotalsKeys(keys, f, part, groups);
      SubtotalsKeys(rest, f, part, groups - {g});
      SumTake(groups, all, g);
      SubtotalsApart(keys, f, part, groups, g);
      SumAgree(groups - {g}, all, less);
    }
  }

  lemma SubtotalsKeys<K, G>(keys: set<K>, f: map<K, int>, part: map<K, G>, groups: set<G>)
    requires keys <= f.Keys && keys <= part.Keys
    ensures Subtotals(keys, f, part, groups).Keys == groups
    ensures forall g :: g in groups ==> Subtotals(keys, f, part, groups)[g] == Sum(Fiber(keys, part, g), f)
  {
    hide Sum, Fiber;
  }

  /** Taking out one group leaves the other subtotals. */
  lemma SubtotalsApart<K, G>(keys: set<K>, f: map<K, int>, part: map<K, G>, groups: set<G>, g: G)
    requires keys <= f.Keys && keys <= part.Keys && g in groups
    ensures var rest := keys - Fiber(keys, part, g);
            forall h :: h in groups - {g} ==>
              Subtotals(keys, f, part, groups)[h] == Subtotals(rest, f, part, groups - {g})[h]
  {
    hide Sum;
    var rest := keys - Fiber(keys, part, g);
    forall h | h in groups - {g}
      ensures Subtotals(keys, f, part, groups)[h] == Subtotals(rest, f, part, groups - {g})[h]
    {
      assert Fiber(keys, part, h) == Fiber(rest, part, h);
    }
  }

  lemma TakeStep<T>(s: seq<T>, i: nat)
    requires i < |s| && Distinct(s)
    ensures s[i] !in SetOf(s[..i]) && SetOf(s[..i + 1]) == SetOf(s[..i]) + {s[i]}
  {
    assert s[..i + 1] == s[..i] + [s[i]];
  }

  lemma TakeEnds<T>(s: seq<T>)
    ensures SetOf(s[..0]) == {} && s[..|s|] == s
  {
  }

  lemma EmptySet<T>(s: seq<T>)
    ensures s == [] <==> SetOf(s) == {}
  {
    assert s != [] ==> s[0] in SetOf(s);
  }

  lemma SameSizeSubset<T>(a: set<T>, b: set<T>)
    requires a <= b
    ensures |a| == |b| <==> a == b
  {
    assert b == a + (b - a);
    assert |b| == |a| + |b - a|;
  }

  lemma DistinctParts<T>(a: seq<T>, b: seq<T>)
    requires Distinct(a + b)
    ensures Distinct(a) && forall x :: x in a ==> x !in b
  {
    var ab := a + b;
    forall i, j | 0 <= i < j < |a|
      ensures a[i] != a[j]
    {
      assert ab[i] == a[i] && ab[j] == a[j];
    }
    forall i, j | 0 <= i < |a| && 0 <= j < |b|
      ensures a[i] != b[j]
    {
      assert ab[i] == a[i] && ab[|a| + j] == b[j];
    }
  }
}
