/** Sequence utilities shared by the store and the analytics: sums, the
    ascending key order in which the store enumerates a table, filtering,
    and the stable sort that `Array.prototype.sort` performs. */
module Seqs {

  /** Sum of `f` over the elements of `s`, left to right. */
  function SumOf<T>(s: seq<T>, f: T -> int): int
  {
    if s == [] then 0 else f(s[0]) + SumOf(s[1..], f)
  }

  lemma {:induction false} SumOfAppend<T>(a: seq<T>, b: seq<T>, f: T -> int)
    ensures SumOf(a + b, f) == SumOf(a, f) + SumOf(b, f)
  {
    if a == [] {
      assert a + b == b;
    } else {
      assert (a + b)[1..] == a[1..] + b;
      SumOfAppend(a[1..], b, f);
    }
  }

  /** The sum is the sum of all but the last element plus the last. */
  lemma SumOfLast<T>(s: seq<T>, f: T -> int)
    requires s != []
    ensures SumOf(s, f) == SumOf(s[..|s| - 1], f) + f(s[|s| - 1])
  {
    assert s == s[..|s| - 1] + [s[|s| - 1]];
    SumOfAppend(s[..|s| - 1], [s[|s| - 1]], f);
    SumOfSingle(s[|s| - 1], f);
  }

  /** Two orderings of the same multiset have the same length and members. */
  lemma SameMembers<T>(a: seq<T>, b: seq<T>)
    requires multiset(a) == multiset(b)
    ensures |a| == |b|
    ensures forall x :: x in a <==> x in b
  {
    assert |multiset(a)| == |multiset(b)|;
    forall x ensures x in a <==> x in b {
      assert x in a <==> x in multiset(a);
      assert x in b <==> x in multiset(b);
    }
  }

  /** Sums do not depend on the order of the elements. */
  lemma {:induction false} SumOfPermutation<T>(a: seq<T>, b: seq<T>, f: T -> int)
    requires multiset(a) == multiset(b)
    ensures SumOf(a, f) == SumOf(b, f)
    decreases |a|
  {
    if a == [] {
      assert |b| == |multiset(b)| == 0;
    } else {
      assert a[0] in multiset(b);
      var j :| 0 <= j < |b| && b[j] == a[0];
      var rest := b[..j] + b[j + 1..];
      RemoveAt(a, b, j);
      SumOfPermutation(a[1..], rest, f);
      SumOfRemoveAt(b, j, f);
    }
  }

  /** Taking out matching first and `j`-th elements keeps two permutations
      permutations of each other. */
  lemma RemoveAt<T>(a: seq<T>, b: seq<T>, j: nat)
    requires multiset(a) == multiset(b) && a != [] && j < |b| && b[j] == a[0]
    ensures multiset(a[1..]) == multiset(b[..j] + b[j + 1..])
  {
    var l, r := b[..j], b[j + 1..];
    assert a == [a[0]] + a[1..];
    assert b == l + [b[j]] + r;
    assert multiset(a) == multiset{a[0]} + multiset(a[1..]);
    assert multiset(b) == multiset(l) + multiset{b[j]} + multiset(r);
    assert multiset(l + r) == multiset(l) + multiset(r);
    assert multiset(a[1..]) == multiset(a) - multiset{a[0]};
    assert multiset(l + r) == multiset(b) - multiset{b[j]};
  }

  /** The sum is the `j`-th term plus the sum of the others. */
  lemma SumOfRemoveAt<T>(b: seq<T>, j: nat, f: T -> int)
    requires j < |b|
    ensures SumOf(b, f) == f(b[j]) + SumOf(b[..j] + b[j + 1..], f)
  {
    var l, x, r := b[..j], b[j], b[j + 1..];
    assert b[..j + 1] == l + [x];
    assert b == b[..j + 1] + r;
    SumOfAppend(b[..j + 1], r, f);
    SumOfAppend(l, [x], f);
    SumOfAppend(l, r, f);
    SumOfSingle(x, f);
  }

  lemma SumOfSingle<T>(x: T, f: T -> int)
    ensures SumOf([x], f) == f(x)
  {
    assert [x][1..] == [];
  }

  /** The least element of a non-empty set of integers. */
  function MinOf(s: set<int>): (m: int)
    requires s != {}
    ensures m in s && forall x :: x in s ==> m <= x
  {
    MinExists(s);
    var m :| m in s && forall x :: x in s ==> m <= x;
    m
  }

  lemma NonEmptyHasElement(s: set<int>)
    requires s != {}
    ensures exists x :: x in s
  {
    if forall x :: x !in s {
      assert false;
    }
  }

  lemma {:induction false} MinExists(s: set<int>)
    requires s != {}
    ensures exists m :: m in s && forall x :: x in s ==> m <= x
    decreases |s|
  {
    NonEmptyHasElement(s);
    var x :| x in s;
    if s != {x} {
      MinExists(s - {x});
      var y :| y in s - {x} && forall z :: z in s - {x} ==> y <= z;
      var m := if x <= y then x else y;
      forall z | z in s ensures m <= z {
        if z != x {
          assert z in s - {x};
        }
      }
    } else {
      forall z | z in s ensures x <= z {
        assert z in {x};
      }
    }
  }

  /** The elements of `s` in ascending order: the order in which IndexedDB
      enumerates the primary keys of a table. */
  function SortedKeys(s: set<int>): (r: seq<int>)
    ensures |r| == |s|
    ensures forall i, j :: 0 <= i < j < |r| ==> r[i] < r[j]
    ensures forall k :: k in s <==> k in r
    decreases |s|
  {
    if s == {} then []
    else
      var m := MinOf(s);
      [m] + SortedKeys(s - {m})
  }

  /** All records of a table, in ascending primary-key order (`getAll`). */
  function Rows<V>(m: map<int, V>): (r: seq<V>)
    ensures |r| == |m|
  {
    var ks := SortedKeys(m.Keys);
    seq(|ks|, i requires 0 <= i < |ks| => m[ks[i]])
  }

  /** The records of `m` are exactly the values of `Rows(m)`, once each. */
  lemma RowsAt<V>(m: map<int, V>, i: nat)
    requires i < |m|
    ensures SortedKeys(m.Keys)[i] in m && Rows(m)[i] == m[SortedKeys(m.Keys)[i]]
  {
  }

  /** Every record of a table is one of its rows, and every row is a record. */
  lemma RowsAreValues<V>(m: map<int, V>)
    ensures forall k :: k in m ==> m[k] in Rows(m)
    ensures forall x :: x in Rows(m) ==> exists k :: k in m && m[k] == x
  {
    forall k | k in m ensures m[k] in Rows(m) {
      var ks := SortedKeys(m.Keys);
      var i :| 0 <= i < |ks| && ks[i] == k;
      RowsAt(m, i);
    }
    forall x | x in Rows(m) ensures exists k :: k in m && m[k] == x {
      var i :| 0 <= i < |Rows(m)| && Rows(m)[i] == x;
      RowsAt(m, i);
    }
  }

  /** A union of maps with disjoint keys has the sum of their sizes. */
  lemma DisjointUnionSize<V>(a: map<int, V>, b: map<int, V>)
    requires forall k :: k in a ==> k !in b
    ensures |a + b| == |a| + |b|
  {
    var ka, kb := a.Keys, b.Keys;
    if ka * kb != {} {
      NonEmptyHasElement(ka * kb);
      assert false;
    }
    assert (a + b).Keys == ka + kb;
    assert |ka + kb| == |ka| + |kb|;
  }

  /** The elements of `s` that satisfy `p`, in their original order. */
  function Filter<T>(s: seq<T>, p: T -> bool): (r: seq<T>)
    ensures |r| <= |s|
    ensures forall i :: 0 <= i < |r| ==> r[i] in s && p(r[i])
    ensures (forall i :: 0 <= i < |s| ==> !p(s[i])) ==> r == []
  {
    if s == [] then []
    else if p(s[0]) then [s[0]] + Filter(s[1..], p)
    else Filter(s[1..], p)
  }

  /** Filtering drops no element that satisfies the predicate. */
  lemma {:induction false} FilterKeeps<T>(s: seq<T>, p: T -> bool, i: nat)
    requires i < |s| && p(s[i])
    ensures s[i] in Filter(s, p)
  {
    if i > 0 {
      FilterKeeps(s[1..], p, i - 1);
      assert s[1..][i - 1] == s[i];
    }
  }

  lemma FilterHas<T>(s: seq<T>, p: T -> bool, x: T)
    requires x in s && p(x)
    ensures x in Filter(s, p)
  {
    var i :| 0 <= i < |s| && s[i] == x;
    FilterKeeps(s, p, i);
  }

  /** Filtering keeps the relative order: a strictly increasing key stays so. */
  lemma {:induction false} FilterIncreasing<T>(s: seq<T>, p: T -> bool, key: T -> int)
    requires forall i, j :: 0 <= i < j < |s| ==> key(s[i]) < key(s[j])
    ensures forall i, j :: 0 <= i < j < |Filter(s, p)| ==> key(Filter(s, p)[i]) < key(Filter(s, p)[j])
  {
    if s != [] {
      FilterIncreasing(s[1..], p, key);
      var rest := Filter(s[1..], p);
      forall y | y in rest ensures key(s[0]) < key(y) {
        var n :| 0 <= n < |s[1..]| && s[1..][n] == y;
        assert s[n + 1] == y;
      }
    }
  }

  /** The elements of `s` whose key is `k`, in their original order. */
  function WithKey<T>(s: seq<T>, key: T -> int, k: int): seq<T>
  {
    if s == [] then []
    else if key(s[0]) == k then [s[0]] + WithKey(s[1..], key, k)
    else WithKey(s[1..], key, k)
  }

  /** Whether an element has key `k`. */
  function KeyIs<T>(key: T -> int, k: int): T -> bool
  {
    (x: T) => key(x) == k
  }

  /** `WithKey` is the filter on one key value. */
  lemma {:induction false} WithKeyIsFilter<T>(s: seq<T>, key: T -> int, k: int)
    ensures WithKey(s, key, k) == Filter(s, KeyIs(key, k))
  {
    if s != [] {
      WithKeyIsFilter(s[1..], key, k);
    }
  }

  /** The values of `id` strictly increase along `s`. */
  ghost predicate IncreasingBy<T>(s: seq<T>, id: T -> int)
  {
    forall i, j :: 0 <= i < j < |s| ==> id(s[i]) < id(s[j])
  }

  ghost predicate SortedByKey<T>(s: seq<T>, key: T -> int)
  {
    forall i, j :: 0 <= i < j < |s| ==> key(s[i]) <= key(s[j])
  }

  /** Inserts `x` before the first element whose key is not smaller. */
  function InsertByKey<T>(x: T, s: seq<T>, key: T -> int): seq<T>
  {
    if s == [] || key(x) <= key(s[0]) then [x] + s
    else [s[0]] + InsertByKey(x, s[1..], key)
  }

  /** Stable ascending sort by an integer key (insertion sort), the
      behaviour of `arr.sort((a, b) => key(a) - key(b))`. */
  function SortByKey<T>(s: seq<T>, key: T -> int): seq<T>
  {
    if s == [] then [] else InsertByKey(s[0], SortByKey(s[1..], key), key)
  }

  lemma InsertByKeyFacts<T>(x: T, s: seq<T>, key: T -> int)
    requires SortedByKey(s, key)
    ensures SortedByKey(InsertByKey(x, s, key), key)
    ensures multiset(InsertByKey(x, s, key)) == multiset([x] + s)
    ensures forall k :: WithKey(InsertByKey(x, s, key), key, k) ==
                        if key(x) == k then [x] + WithKey(s, key, k) else WithKey(s, key, k)
  {
    InsertByKeySorted(x, s, key);
    InsertByKeyKeeps(x, s, key);
    forall k ensures WithKey(InsertByKey(x, s, key), key, k) ==
                     if key(x) == k then [x] + WithKey(s, key, k) else WithKey(s, key, k)
    {
      InsertByKeyWithKey(x, s, key, k);
    }
  }

  /** Insertion adds exactly the one element. */
  lemma {:induction false} InsertByKeyKeeps<T>(x: T, s: seq<T>, key: T -> int)
    ensures multiset(InsertByKey(x, s, key)) == multiset([x] + s)
  {
    if s == [] || key(x) <= key(s[0]) {
    } else {
      InsertByKeyKeeps(x, s[1..], key);
      assert s == [s[0]] + s[1..];
    }
  }

  /** Insertion into a sorted sequence keeps it sorted. */
  lemma {:induction false} InsertByKeySorted<T>(x: T, s: seq<T>, key: T -> int)
    requires SortedByKey(s, key)
    ensures SortedByKey(InsertByKey(x, s, key), key)
  {
    if s == [] || key(x) <= key(s[0]) {
    } else {
      var t := InsertByKey(x, s[1..], key);
      InsertByKeySorted(x, s[1..], key);
      InsertByKeyBound(x, s[1..], key, key(s[0]));
      assert InsertByKey(x, s, key) == [s[0]] + t;
    }
  }

  /** A lower bound on the keys of `x` and of `s` bounds the insertion too. */
  lemma {:induction false} InsertByKeyBound<T>(x: T, s: seq<T>, key: T -> int, b: int)
    requires key(x) >= b && forall i :: 0 <= i < |s| ==> key(s[i]) >= b
    ensures forall i :: 0 <= i < |InsertByKey(x, s, key)| ==> key(InsertByKey(x, s, key)[i]) >= b
  {
    if s == [] || key(x) <= key(s[0]) {
    } else {
      InsertByKeyBound(x, s[1..], key, b);
      assert InsertByKey(x, s, key) == [s[0]] + InsertByKey(x, s[1..], key);
    }
  }

  /** Insertion adds `x` at the front of the elements with its key, and
      leaves the elements of any other key as they were. */
  lemma {:induction false} InsertByKeyWithKey<T>(x: T, s: seq<T>, key: T -> int, k: int)
    ensures WithKey(InsertByKey(x, s, key), key, k) ==
            if key(x) == k then [x] + WithKey(s, key, k) else WithKey(s, key, k)
  {
    if s == [] || key(x) <= key(s[0]) {
      assert ([x] + s)[1..] == s;
    } else {
      var t := InsertByKey(x, s[1..], key);
      InsertByKeyWithKey(x, s[1..], key, k);
      assert s == [s[0]] + s[1..];
      assert ([s[0]] + t)[1..] == t;
    }
  }

  /** The sort orders by key, keeps every element, and is stable: for each
      key, the elements having it appear in their original order. */
  lemma {:induction false} SortByKeyFacts<T>(s: seq<T>, key: T -> int)
    ensures SortedByKey(SortByKey(s, key), key)
    ensures multiset(SortByKey(s, key)) == multiset(s)
    ensures forall k :: WithKey(SortByKey(s, key), key, k) == WithKey(s, key, k)
  {
    if s != [] {
      SortByKeyFacts(s[1..], key);
      InsertByKeyFacts(s[0], SortByKey(s[1..], key), key);
      assert s == [s[0]] + s[1..];
      forall k ensures WithKey(SortByKey(s, key), key, k) == WithKey(s, key, k)
      {
        assert s[1..] == ([s[0]] + s[1..])[1..];
      }
    }
  }

  /** After the stable sort, the elements sharing a key still come in
      increasing `id` order when they did before. */
  lemma SortKeepsTiesIncreasing<T>(s: seq<T>, key: T -> int, id: T -> int)
    requires IncreasingBy(s, id)
    ensures forall k :: IncreasingBy(WithKey(SortByKey(s, key), key, k), id)
  {
    SortByKeyFacts(s, key);
    forall k ensures IncreasingBy(WithKey(SortByKey(s, key), key, k), id) {
      WithKeyIsFilter(s, key, k);
      FilterIncreasing(s, KeyIs(key, k), id);
    }
  }

  /** The first `n` elements, or all of them if there are fewer (`limit(n)`). */
  function Take<T>(s: seq<T>, n: nat): (r: seq<T>)
    ensures |r| == if |s| < n then |s| else n
    ensures forall i :: 0 <= i < |r| ==> r[i] == s[i]
  {
    if |s| <= n then s else s[..n]
  }
}
