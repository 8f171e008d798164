/** Grouping amounts by a key, the way the analytics build a `Record` of
    running totals in a `forEach`: the first entry with a key creates it
    (so keys are remembered in first-seen order) and every entry adds its
    amount to its key's total. */
module Tallies {
  import opened Seqs

  datatype Entry<K> = Entry(key: K, amount: int)

  /** The keys in the order they were first seen, and the total per key. */
  datatype Tally<K> = Tally(order: seq<K>, totals: map<K, int>)

  function Amount<K>(e: Entry<K>): int
  {
    e.amount
  }

  /** The total of `t`, 0 for a key it does not hold. */
  function TotalOf<K>(t: map<K, int>): K -> int
  {
    (k: K) => if k in t then t[k] else 0
  }

  ghost predicate Distinct<K>(s: seq<K>)
  {
    forall i, j :: 0 <= i < j < |s| ==> s[i] != s[j]
  }

  /** One step of the `forEach`: a key not yet present starts at 0. */
  function AddEntry<K>(t: Tally<K>, e: Entry<K>): Tally<K>
  {
    if e.key in t.totals then Tally(t.order, t.totals[e.key := t.totals[e.key] + e.amount])
    else Tally(t.order + [e.key], t.totals[e.key := e.amount])
  }

  /** The tally after all of `s`, left to right. */
  function TallyOf<K>(s: seq<Entry<K>>): Tally<K>
  {
    if s == [] then Tally([], map[]) else AddEntry(TallyOf(s[..|s| - 1]), s[|s| - 1])
  }

  /** The sum of the amounts of the entries with key `k`: the reference
      definition of a group's total. */
  function TotalFor<K(==)>(s: seq<Entry<K>>, k: K): int
  {
    if s == [] then 0
    else TotalFor(s[..|s| - 1], k) + (if s[|s| - 1].key == k then s[|s| - 1].amount else 0)
  }

  /** The `forEach` loop. */
  method TallyEntries<K>(s: seq<Entry<K>>) returns (order: seq<K>, totals: map<K, int>)
    ensures Tally(order, totals) == TallyOf(s)
  {
    order, totals := [], map[];
    for i := 0 to |s|
      invariant Tally(order, totals) == TallyOf(s[..i])
    {
      assert s[..i + 1][..i] == s[..i];
      var e := s[i];
      if e.key !in totals {
        order := order + [e.key];
        totals := totals[e.key := 0];
      }
      totals := totals[e.key := totals[e.key] + e.amount];
    }
    assert s[..|s|] == s;
  }

  /** The order lists each key of the totals exactly once. */
  lemma {:induction false} TallyOrder<K>(s: seq<Entry<K>>)
    ensures Distinct(TallyOf(s).order)
    ensures forall k :: k in TallyOf(s).order <==> k in TallyOf(s).totals
  {
    if s != [] {
      TallyOrder(s[..|s| - 1]);
    }
  }

  /** The keys of the tally are exactly the keys of the entries. */
  lemma {:induction false} TallyKeys<K>(s: seq<Entry<K>>)
    ensures forall k :: k in TallyOf(s).totals <==> exists i :: 0 <= i < |s| && s[i].key == k
  {
    if s != [] {
      var init := s[..|s| - 1];
      TallyKeys(init);
      forall k ensures k in TallyOf(s).totals <==> exists i :: 0 <= i < |s| && s[i].key == k {
        if k in TallyOf(init).totals {
          var i :| 0 <= i < |init| && init[i].key == k;
          assert s[i].key == k;
        }
        if i :| 0 <= i < |s| && s[i].key == k {
          if i < |init| {
            assert init[i].key == k;
          }
        }
      }
    }
  }

  /** An entry that carries a key of the tally. */
  lemma KeyIndex<K>(s: seq<Entry<K>>, k: K) returns (i: nat)
    requires k in TallyOf(s).totals
    ensures i < |s| && s[i].key == k
  {
    TallyKeys(s);
    i :| 0 <= i < |s| && s[i].key == k;
  }

  /** Each key's total is the sum of the amounts of its entries. */
  lemma {:induction false} TallyTotals<K>(s: seq<Entry<K>>)
    ensures forall k :: k in TallyOf(s).totals ==> TallyOf(s).totals[k] == TotalFor(s, k)
    ensures forall k :: k !in TallyOf(s).totals ==> TotalFor(s, k) == 0
  {
    if s != [] {
      TallyTotals(s[..|s| - 1]);
    }
  }

  /** Sums agree for functions that agree on the elements. */
  lemma {:induction false} SumOfAgree<T>(s: seq<T>, f: T -> int, g: T -> int)
    requires forall i :: 0 <= i < |s| ==> f(s[i]) == g(s[i])
    ensures SumOf(s, f) == SumOf(s, g)
  {
    if s != [] {
      SumOfAgree(s[1..], f, g);
    }
  }

  /** Adding `a` to the total of a key listed once changes the sum by `a`. */
  lemma SumAfterUpdate<K>(o: seq<K>, t: map<K, int>, j: nat, a: int)
    requires j < |o| && Distinct(o) && o[j] in t
    ensures SumOf(o, TotalOf(t[o[j] := t[o[j]] + a])) == SumOf(o, TotalOf(t)) + a
  {
    var t' := t[o[j] := t[o[j]] + a];
    var before, after := o[..j], o[j + 1..];
    assert o == before + [o[j]] + after;
    SumOfAgree(before, TotalOf(t), TotalOf(t'));
    forall i | 0 <= i < |after| ensures after[i] != o[j] {
      assert after[i] == o[j + 1 + i];
    }
    SumOfAgree(after, TotalOf(t), TotalOf(t'));
    SumOfAppend(before + [o[j]], after, TotalOf(t));
    SumOfAppend(before, [o[j]], TotalOf(t));
    SumOfAppend(before + [o[j]], after, TotalOf(t'));
    SumOfAppend(before, [o[j]], TotalOf(t'));
  }

  /** Appending a key not yet listed, with total `a`, adds `a` to the sum. */
  lemma SumAfterNew<K>(o: seq<K>, t: map<K, int>, k: K, a: int)
    requires forall i :: 0 <= i < |o| ==> o[i] != k
    ensures SumOf(o + [k], TotalOf(t[k := a])) == SumOf(o, TotalOf(t)) + a
  {
    SumOfAgree(o, TotalOf(t), TotalOf(t[k := a]));
    SumOfAppend(o, [k], TotalOf(t[k := a]));
  }

  /** The group totals add up to the sum of all amounts. */
  lemma {:induction false} TallySum<K>(s: seq<Entry<K>>)
    ensures SumOf(TallyOf(s).order, TotalOf(TallyOf(s).totals)) == SumOf(s, Amount)
  {
    if s != [] {
      var init, e := s[..|s| - 1], s[|s| - 1];
      TallySum(init);
      TallyOrder(init);
      AddEntrySum(TallyOf(init), e);
      SumOfLast(s, Amount);
    }
  }

  /** One entry adds its amount to the sum of the group totals. */
  lemma AddEntrySum<K>(t: Tally<K>, e: Entry<K>)
    requires Distinct(t.order) && forall k :: k in t.order <==> k in t.totals
    ensures SumOf(AddEntry(t, e).order, TotalOf(AddEntry(t, e).totals)) == SumOf(t.order, TotalOf(t.totals)) + e.amount
  {
    if e.key in t.totals {
      var j :| 0 <= j < |t.order| && t.order[j] == e.key;
      SumAfterUpdate(t.order, t.totals, j, e.amount);
    } else {
      forall i | 0 <= i < |t.order| ensures t.order[i] != e.key {
        assert t.order[i] in t.order;
      }
      SumAfterNew(t.order, t.totals, e.key, e.amount);
    }
  }

  /** Read through `TotalOf`, the tally holds each key's reference total. */
  lemma TotalOfIsTotalFor<K>(s: seq<Entry<K>>)
    ensures forall k :: TotalOf(TallyOf(s).totals)(k) == TotalFor(s, k)
  {
    TallyTotals(s);
  }

  /** With no negative amount, a group's total lies between 0 and the sum
      of all amounts. */
  lemma {:induction false} TotalForBounds<K>(s: seq<Entry<K>>, k: K)
    requires forall i :: 0 <= i < |s| ==> s[i].amount >= 0
    ensures 0 <= TotalFor(s, k) <= SumOf(s, Amount)
  {
    if s != [] {
      var init := s[..|s| - 1];
      TotalForBounds(init, k);
      SumOfLast(s, Amount);
    }
  }

  /** A permutation of a list without repetitions has none. */
  lemma DistinctPermutation<T>(a: seq<T>, b: seq<T>)
    requires Distinct(a) && multiset(a) == multiset(b)
    ensures Distinct(b)
  {
    forall x | x in multiset(b) ensures multiset(b)[x] == 1 {
      var i :| 0 <= i < |a| && a[i] == x;
      OccursOnce(a, i);
    }
    forall i, j | 0 <= i < j < |b| ensures b[i] != b[j] {
      assert b == b[..i] + [b[i]] + b[i + 1..j] + [b[j]] + b[j + 1..];
      assert multiset(b)[b[i]] == 1;
      assert b[i] in multiset(b);
    }
  }

  /** In a list without repetitions each element occurs once. */
  lemma OccursOnce<T>(a: seq<T>, i: nat)
    requires Distinct(a) && i < |a|
    ensures multiset(a)[a[i]] == 1
  {
    assert a == a[..i] + [a[i]] + a[i + 1..];
    forall x | x in a[..i] ensures x != a[i] {
      var n :| 0 <= n < i && a[..i][n] == x;
      assert a[n] == x;
    }
    var rest := a[i + 1..];
    forall x | x in rest ensures x != a[i] {
      var n :| 0 <= n < |rest| && rest[n] == x;
      assert a[i + 1 + n] == x;
    }
  }

  /** The values of `f` along `s` are pairwise different. */
  ghost predicate DistinctBy<T, U>(s: seq<T>, f: T -> U)
  {
    forall i, j :: 0 <= i < j < |s| ==> f(s[i]) != f(s[j])
  }

  /** A permutation keeps the values of `f` pairwise different. */
  lemma DistinctByPermutation<T, U>(a: seq<T>, b: seq<T>, f: T -> U)
    requires DistinctBy(a, f) && multiset(a) == multiset(b)
    ensures DistinctBy(b, f)
  {
    DistinctPermutation(a, b);
    forall i, j | 0 <= i < j < |b| ensures f(b[i]) != f(b[j]) {
      assert b[i] in multiset(a) && b[j] in multiset(a);
      var x :| 0 <= x < |a| && a[x] == b[i];
      var y :| 0 <= y < |a| && a[y] == b[j];
      assert x != y;
    }
  }

  /** A distinct order listing exactly the keys has as many entries as keys. */
  lemma OrderCoversTotals<K>(t: Tally<K>)
    requires Distinct(t.order) && forall k :: k in t.order <==> k in t.totals
    ensures |t.order| == |t.totals|
  {
    var ks := set i | 0 <= i < |t.order| :: t.order[i];
    assert ks == t.totals.Keys;
    DistinctCard(t.order);
  }

  lemma {:induction false} DistinctCard<K>(s: seq<K>)
    requires Distinct(s)
    ensures |set i | 0 <= i < |s| :: s[i]| == |s|
  {
    if s != [] {
      var init := s[..|s| - 1];
      DistinctCard(init);
      ElementsStep(s);
    }
  }

  /** The elements of a list without repetitions are those of all but its
      last, plus the last, which is new. */
  lemma ElementsStep<K>(s: seq<K>)
    requires Distinct(s) && s != []
    ensures var init := s[..|s| - 1];
            (set i | 0 <= i < |s| :: s[i]) == (set i | 0 <= i < |init| :: init[i]) + {s[|s| - 1]} &&
            s[|s| - 1] !in (set i | 0 <= i < |init| :: init[i])
  {
    var init := s[..|s| - 1];
    var a := set i | 0 <= i < |init| :: init[i];
    forall x | x in a ensures x != s[|s| - 1] {
      var i :| 0 <= i < |init| && init[i] == x;
      assert s[i] == x;
    }
    assert (set i | 0 <= i < |s| :: s[i]) == a + {s[|s| - 1]};
  }
}
