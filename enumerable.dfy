/**
 * The LINQ-to-Objects operators the cart-quantity metric is built from, on finite
 * sequences (an IEnumerable is enumerated once, front to back), together with a
 * reference sum `Sum` and the facts that connect them.
 */
module Enumerable {
  import opened Wrappers

  /** An IGrouping: the key and the elements that have it, in source order. */
  datatype Grouping<K, T> = Grouping(key: K, elements: seq<T>)

  // ---------------------------------------------------------------------------
  // Where, Select

  /** `xs.Where(p)`: the elements satisfying `p`, in source order. */
  function Where<T>(xs: seq<T>, p: T -> bool): (r: seq<T>)
    ensures |r| <= |xs|
    ensures forall i :: 0 <= i < |r| ==> r[i] in xs && p(r[i])
    ensures forall i :: 0 <= i < |xs| && p(xs[i]) ==> xs[i] in r
  {
    if xs == [] then []
    else if p(xs[0]) then [xs[0]] + Where(xs[1..], p)
    else Where(xs[1..], p)
  }

  /** Where keeps every matching element once per occurrence, and drops every other. */
  lemma {:induction false} WhereCount<T>(xs: seq<T>, p: T -> bool, x: T)
    ensures multiset(Where(xs, p))[x] == if p(x) then multiset(xs)[x] else 0
  {
    if xs != [] {
      assert xs == [xs[0]] + xs[1..];
      WhereCount(xs[1..], p, x);
    }
  }

  /** Where keeps source order: filtering a concatenation is concatenating the filtered parts. */
  lemma {:induction false} WhereConcat<T>(xs: seq<T>, ys: seq<T>, p: T -> bool)
    ensures Where(xs + ys, p) == Where(xs, p) + Where(ys, p)
  {
    if xs == [] {
      assert xs + ys == ys;
    } else {
      assert (xs + ys)[1..] == xs[1..] + ys;
      WhereConcat(xs[1..], ys, p);
    }
  }

  /** `xs.Where(x => x != null)`, where the surviving references are no longer null. */
  function WhereNotNull<T>(xs: seq<Option<T>>): (r: seq<T>)
    ensures |r| <= |xs|
    ensures forall i :: 0 <= i < |r| ==> Some(r[i]) in xs
    ensures forall i :: 0 <= i < |xs| && xs[i].Some? ==> xs[i].value in r
  {
    if xs == [] then []
    else if xs[0].Some? then [xs[0].value] + WhereNotNull(xs[1..])
    else WhereNotNull(xs[1..])
  }

  /** WhereNotNull keeps each non-null value once per entry that holds it. */
  lemma {:induction false} WhereNotNullCount<T>(xs: seq<Option<T>>, x: T)
    ensures multiset(WhereNotNull(xs))[x] == multiset(xs)[Some(x)]
  {
    if xs != [] {
      assert xs == [xs[0]] + xs[1..];
      WhereNotNullCount(xs[1..], x);
    }
  }

  /** WhereNotNull keeps source order: the non-null entries of a concatenation, part by part. */
  lemma {:induction false} WhereNotNullConcat<T>(xs: seq<Option<T>>, ys: seq<Option<T>>)
    ensures WhereNotNull(xs + ys) == WhereNotNull(xs) + WhereNotNull(ys)
  {
    if xs == [] {
      assert xs + ys == ys;
    } else {
      assert (xs + ys)[1..] == xs[1..] + ys;
      WhereNotNullConcat(xs[1..], ys);
    }
  }

  /** `xs.Select(f)`: `f` applied to every element, in order. */
  function Select<T, U>(xs: seq<T>, f: T -> U): (r: seq<U>)
    ensures |r| == |xs|
    ensures forall i :: 0 <= i < |xs| ==> r[i] == f(xs[i])
  {
    if xs == [] then [] else [f(xs[0])] + Select(xs[1..], f)
  }

  // ---------------------------------------------------------------------------
  // Aggregate and the reference sum

  /**
   * `xs.Aggregate(seed, func)`: a left fold, `func` applied to the running value and
   * each element in turn.
   */
  function Aggregate<T>(seed: real, xs: seq<T>, func: (real, T) -> real): real
    decreases |xs|
  {
    if xs == [] then seed else Aggregate(func(seed, xs[0]), xs[1..], func)
  }

  /** Reference definition: the sum of `f` over `xs`. */
  function Sum<T>(xs: seq<T>, f: T -> real): real
  {
    if xs == [] then 0.0 else f(xs[0]) + Sum(xs[1..], f)
  }

  /** A fold that adds `f` of each element to the running value is `seed` plus the sum of `f`. */
  lemma {:induction false} AggregateIsSum<T>(seed: real, xs: seq<T>, func: (real, T) -> real, f: T -> real)
    requires forall a, x :: func(a, x) == a + f(x)
    ensures Aggregate(seed, xs, func) == seed + Sum(xs, f)
    decreases |xs|
  {
    if xs != [] {
      AggregateIsSum(func(seed, xs[0]), xs[1..], func, f);
    }
  }

  lemma {:induction false} SumConcat<T>(xs: seq<T>, ys: seq<T>, f: T -> real)
    ensures Sum(xs + ys, f) == Sum(xs, f) + Sum(ys, f)
  {
    if xs == [] {
      assert xs + ys == ys;
    } else {
      assert (xs + ys)[1..] == xs[1..] + ys;
      SumConcat(xs[1..], ys, f);
    }
  }

  /** Sums that agree element by element are equal. */
  lemma {:induction false} SumPointwise<T>(xs: seq<T>, f: T -> real, g: T -> real)
    requires forall x :: x in xs ==> f(x) == g(x)
    ensures Sum(xs, f) == Sum(xs, g)
  {
    if xs != [] {
      SumPointwise(xs[1..], f, g);
    }
  }

  /** The sum does not depend on the order of the elements. */
  lemma {:induction false} SumPermutation<T>(xs: seq<T>, ys: seq<T>, f: T -> real)
    requires multiset(xs) == multiset(ys)
    ensures Sum(xs, f) == Sum(ys, f)
    decreases |xs|
  {
    if xs == [] {
      assert |ys| == |multiset(ys)| == 0;
    } else {
      var x := xs[0];
      assert x in multiset(ys);
      var i :| 0 <= i < |ys| && ys[i] == x;
      assert ys == ys[..i] + [x] + ys[i + 1..];
      var rest := ys[..i] + ys[i + 1..];
      calc {
        multiset(xs[1..]);
        { assert xs == [x] + xs[1..]; }
        multiset(xs) - multiset{x};
        multiset(ys[..i]) + multiset{x} + multiset(ys[i + 1..]) - multiset{x};
        multiset(rest);
      }
      SumPermutation(xs[1..], rest, f);
      SumConcat(ys[..i], ys[i + 1..], f);
      SumConcat(ys[..i] + [x], ys[i + 1..], f);
      SumConcat(ys[..i], [x], f);
    }
  }

  /** Filtering with `Where` is summing with the rejected elements counted as 0. */
  lemma {:induction false} SumWhere<T>(xs: seq<T>, p: T -> bool, f: T -> real, g: T -> real)
    requires forall x :: g(x) == if p(x) then f(x) else 0.0
    ensures Sum(Where(xs, p), f) == Sum(xs, g)
  {
    if xs != [] {
      SumWhere(xs[1..], p, f, g);
    }
  }

  /** Dropping the nulls is summing with every null counted as 0. */
  lemma {:induction false} SumWhereNotNull<T>(xs: seq<Option<T>>, f: T -> real, g: Option<T> -> real)
    requires forall o :: g(o) == if o.Some? then f(o.value) else 0.0
    ensures Sum(WhereNotNull(xs), f) == Sum(xs, g)
  {
    if xs != [] {
      SumWhereNotNull(xs[1..], f, g);
    }
  }

  // ---------------------------------------------------------------------------
  // GroupBy

  ghost predicate NoDuplicates<K>(ks: seq<K>)
  {
    forall i, j :: 0 <= i < j < |ks| ==> ks[i] != ks[j]
  }

  function Keys<K, T>(gs: seq<Grouping<K, T>>): (ks: seq<K>)
    ensures |ks| == |gs|
    ensures forall i :: 0 <= i < |gs| ==> ks[i] == gs[i].key
  {
    if gs == [] then [] else [gs[0].key] + Keys(gs[1..])
  }

  /**
   * Files `x` under key `k`: appended to the group with that key if there is one,
   * otherwise as a new group at the end.
   */
  function AddToGroups<K(==), T>(gs: seq<Grouping<K, T>>, k: K, x: T): seq<Grouping<K, T>>
  {
    if gs == [] then [Grouping(k, [x])]
    else if gs[0].key == k then [Grouping(k, gs[0].elements + [x])] + gs[1..]
    else [gs[0]] + AddToGroups(gs[1..], k, x)
  }

  /**
   * `xs.GroupBy(key)`: the source is enumerated in order and each element is filed
   * with AddToGroups, so groups come in order of first appearance of their key and
   * each group keeps its elements in source order. Written here from the last element
   * back: the groups of `xs` are those of all but its last element, with the last
   * element filed in.
   */
  function GroupBy<T, K(==)>(xs: seq<T>, key: T --> K): seq<Grouping<K, T>>
    requires forall x :: x in xs ==> key.requires(x)
  {
    if xs == [] then []
    else
      var last := xs[|xs| - 1];
      AddToGroups(GroupBy(xs[..|xs| - 1], key), key(last), last)
  }

  /** Reference definition: the distinct keys of `xs`, in order of first appearance. */
  function DistinctKeys<T, K(==)>(xs: seq<T>, key: T --> K): seq<K>
    requires forall x :: x in xs ==> key.requires(x)
  {
    if xs == [] then []
    else
      var ks := DistinctKeys(xs[..|xs| - 1], key);
      var last := xs[|xs| - 1];
      if key(last) in ks then ks else ks + [key(last)]
  }

  /** Reference definition: the elements of `xs` whose key is `k`, in source order. */
  function WithKey<T, K(==)>(xs: seq<T>, key: T --> K, k: K): seq<T>
    requires forall x :: x in xs ==> key.requires(x)
  {
    if xs == [] then []
    else
      var init := WithKey(xs[..|xs| - 1], key, k);
      var last := xs[|xs| - 1];
      if key(last) == k then init + [last] else init
  }

  /** The distinct keys are exactly the keys of the elements. */
  lemma {:induction false} DistinctKeysMembership<T, K>(xs: seq<T>, key: T --> K, k: K)
    requires forall x :: x in xs ==> key.requires(x)
    ensures k in DistinctKeys(xs, key) <==> exists i :: 0 <= i < |xs| && key(xs[i]) == k
  {
    if xs != [] {
      var init := xs[..|xs| - 1];
      DistinctKeysMembership(init, key, k);
      if exists i :: 0 <= i < |init| && key(init[i]) == k {
        var i :| 0 <= i < |init| && key(init[i]) == k;
        assert xs[i] == init[i];
      }
      if exists i :: 0 <= i < |xs| && key(xs[i]) == k {
        var i :| 0 <= i < |xs| && key(xs[i]) == k;
        if i < |init| {
          assert init[i] == xs[i];
        }
      }
    }
  }

  /** No element has a key that is not among the distinct keys. */
  lemma {:induction false} WithKeyOfUnseenKey<T, K>(xs: seq<T>, key: T --> K, k: K)
    requires forall x :: x in xs ==> key.requires(x)
    requires k !in DistinctKeys(xs, key)
    ensures WithKey(xs, key, k) == []
  {
    if xs != [] {
      WithKeyOfUnseenKey(xs[..|xs| - 1], key, k);
    }
  }

  lemma {:induction false} DistinctKeysNoDuplicates<T, K>(xs: seq<T>, key: T --> K)
    requires forall x :: x in xs ==> key.requires(x)
    ensures NoDuplicates(DistinctKeys(xs, key))
  {
    if xs != [] {
      DistinctKeysNoDuplicates(xs[..|xs| - 1], key);
    }
  }

  /** What filing one element does to a list of groups with distinct keys. */
  lemma {:induction false} AddToGroupsEffect<K, T>(gs: seq<Grouping<K, T>>, k: K, x: T)
    requires NoDuplicates(Keys(gs))
    ensures k in Keys(gs) ==>
              && |AddToGroups(gs, k, x)| == |gs|
              && forall i :: 0 <= i < |gs| ==>
                   AddToGroups(gs, k, x)[i] ==
                     if gs[i].key == k then Grouping(k, gs[i].elements + [x]) else gs[i]
    ensures k !in Keys(gs) ==> AddToGroups(gs, k, x) == gs + [Grouping(k, [x])]
  {
    if gs != [] {
      assert Keys(gs) == [gs[0].key] + Keys(gs[1..]);
      if gs[0].key != k {
        AddToGroupsEffect(gs[1..], k, x);
      } else {
        forall i | 0 < i < |gs| ensures gs[i].key != k {
          assert Keys(gs)[0] != Keys(gs)[i];
        }
      }
    }
  }

  /** WithKey of `init + [last]` is WithKey of `init`, with `last` appended when it has key `k`. */
  lemma WithKeySnoc<T, K>(init: seq<T>, last: T, key: T --> K, k: K)
    requires forall x :: x in init + [last] ==> key.requires(x)
    ensures WithKey(init + [last], key, k) ==
              if key(last) == k then WithKey(init, key, k) + [last] else WithKey(init, key, k)
  {
    assert (init + [last])[..|init|] == init;
  }

  lemma DistinctKeysSnoc<T, K>(init: seq<T>, last: T, key: T --> K)
    requires forall x :: x in init + [last] ==> key.requires(x)
    ensures DistinctKeys(init + [last], key) ==
              var ks := DistinctKeys(init, key);
              if key(last) in ks then ks else ks + [key(last)]
  {
    assert (init + [last])[..|init|] == init;
  }

  /**
   * GroupBy agrees with the reference definitions: one group per distinct key, in
   * order of first appearance, each holding exactly the elements with that key.
   */
  lemma {:induction false} GroupByCharacterization<T, K>(xs: seq<T>, key: T --> K)
    requires forall x :: x in xs ==> key.requires(x)
    ensures Keys(GroupBy(xs, key)) == DistinctKeys(xs, key)
    ensures forall i :: 0 <= i < |GroupBy(xs, key)| ==>
              GroupBy(xs, key)[i].elements == WithKey(xs, key, GroupBy(xs, key)[i].key)
  {
    if xs != [] {
      var init, last := xs[..|xs| - 1], xs[|xs| - 1];
      assert xs == init + [last];
      GroupByCharacterization(init, key);
      GroupByStep(init, last, key);
    }
  }

  /** The induction step of GroupByCharacterization: filing in one more element. */
  lemma GroupByStep<T, K>(init: seq<T>, last: T, key: T --> K)
    requires forall x :: x in init + [last] ==> key.requires(x)
    requires Keys(GroupBy(init, key)) == DistinctKeys(init, key)
    requires forall i :: 0 <= i < |GroupBy(init, key)| ==>
               GroupBy(init, key)[i].elements == WithKey(init, key, GroupBy(init, key)[i].key)
    ensures Keys(GroupBy(init + [last], key)) == DistinctKeys(init + [last], key)
    ensures forall i :: 0 <= i < |GroupBy(init + [last], key)| ==>
              GroupBy(init + [last], key)[i].elements ==
                WithKey(init + [last], key, GroupBy(init + [last], key)[i].key)
  {
    var xs := init + [last];
    assert xs[..|xs| - 1] == init;
    var gs0 := GroupBy(init, key);
    var k := key(last);
    assert GroupBy(xs, key) == AddToGroups(gs0, k, last);
    DistinctKeysNoDuplicates(init, key);
    AddToGroupsEffect(gs0, k, last);
    DistinctKeysSnoc(init, last, key);
    if k in Keys(gs0) {
      GroupByStepKnownKey(init, last, key, gs0, AddToGroups(gs0, k, last));
    } else {
      assert forall i :: 0 <= i < |gs0| ==> gs0[i].key == Keys(gs0)[i];
      GroupByStepNewKey(init, last, key, gs0, AddToGroups(gs0, k, last));
    }
  }

  lemma GroupByStepKnownKey<T, K>(init: seq<T>, last: T, key: T --> K, gs0: seq<Grouping<K, T>>, gs: seq<Grouping<K, T>>)
    requires forall x :: x in init + [last] ==> key.requires(x)
    requires forall i :: 0 <= i < |gs0| ==> gs0[i].elements == WithKey(init, key, gs0[i].key)
    requires |gs| == |gs0|
    requires forall i :: 0 <= i < |gs0| ==>
               gs[i] == if gs0[i].key == key(last) then Grouping(key(last), gs0[i].elements + [last]) else gs0[i]
    ensures Keys(gs) == Keys(gs0)
    ensures forall i :: 0 <= i < |gs| ==> gs[i].elements == WithKey(init + [last], key, gs[i].key)
  {
    forall i | 0 <= i < |gs| ensures gs[i].elements == WithKey(init + [last], key, gs[i].key) {
      GroupStep(init, last, key, gs0[i], gs[i]);
    }
    assert Keys(gs) == Keys(gs0) by {
      forall i | 0 <= i < |gs| ensures Keys(gs)[i] == Keys(gs0)[i] {
        assert gs[i].key == gs0[i].key;
      }
    }
  }

  lemma GroupByStepNewKey<T, K>(init: seq<T>, last: T, key: T --> K, gs0: seq<Grouping<K, T>>, gs: seq<Grouping<K, T>>)
    requires forall x :: x in init + [last] ==> key.requires(x)
    requires key(last) !in DistinctKeys(init, key)
    requires forall i :: 0 <= i < |gs0| ==> gs0[i].key != key(last)
    requires forall i :: 0 <= i < |gs0| ==> gs0[i].elements == WithKey(init, key, gs0[i].key)
    requires gs == gs0 + [Grouping(key(last), [last])]
    ensures Keys(gs) == Keys(gs0) + [key(last)]
    ensures forall i :: 0 <= i < |gs| ==> gs[i].elements == WithKey(init + [last], key, gs[i].key)
  {
    forall i | 0 <= i < |gs| ensures gs[i].elements == WithKey(init + [last], key, gs[i].key) {
      if i < |gs0| {
        assert gs[i] == gs0[i];
        GroupStep(init, last, key, gs0[i], gs[i]);
      } else {
        NewGroup(init, last, key);
      }
    }
    assert Keys(gs) == Keys(gs0) + [key(last)] by {
      forall i | 0 <= i < |gs| ensures Keys(gs)[i] == (Keys(gs0) + [key(last)])[i] {
        if i < |gs0| {
          assert gs[i] == gs0[i];
        }
      }
    }
  }

  /** One group of the induction step: it gains `last` exactly when its key is that of `last`. */
  lemma GroupStep<T, K>(init: seq<T>, last: T, key: T --> K, g0: Grouping<K, T>, g: Grouping<K, T>)
    requires forall x :: x in init + [last] ==> key.requires(x)
    requires g0.elements == WithKey(init, key, g0.key)
    requires g == if g0.key == key(last) then Grouping(key(last), g0.elements + [last]) else g0
    ensures g.elements == WithKey(init + [last], key, g.key)
  {
    WithKeySnoc(init, last, key, g.key);
  }

  /** The group opened for a key not seen before holds only the element that opened it. */
  lemma NewGroup<T, K>(init: seq<T>, last: T, key: T --> K)
    requires forall x :: x in init + [last] ==> key.requires(x)
    requires key(last) !in DistinctKeys(init, key)
    ensures WithKey(init + [last], key, key(last)) == [last]
  {
    WithKeySnoc(init, last, key, key(last));
    WithKeyOfUnseenKey(init, key, key(last));
  }

  /** Summing each group and then the group sums is summing the elements. */
  lemma {:induction false} GroupBySum<T, K>(xs: seq<T>, key: T --> K, f: T -> real, h: Grouping<K, T> -> real)
    requires forall x :: x in xs ==> key.requires(x)
    requires forall g :: h(g) == Sum(g.elements, f)
    ensures Sum(GroupBy(xs, key), h) == Sum(xs, f)
  {
    if xs != [] {
      var init, last := xs[..|xs| - 1], xs[|xs| - 1];
      assert xs == init + [last];
      GroupBySum(init, key, f, h);
      AddToGroupsSum(GroupBy(init, key), key(last), last, f, h);
      SumConcat(init, [last], f);
    }
  }

  lemma {:induction false} AddToGroupsSum<K, T>(gs: seq<Grouping<K, T>>, k: K, x: T, f: T -> real, h: Grouping<K, T> -> real)
    requires forall g :: h(g) == Sum(g.elements, f)
    ensures Sum(AddToGroups(gs, k, x), h) == Sum(gs, h) + f(x)
  {
    if gs == [] {
      assert Sum([x], f) == f(x);
      assert Sum(AddToGroups(gs, k, x), h) == h(Grouping(k, [x]));
    } else if gs[0].key == k {
      SumConcat(gs[0].elements, [x], f);
      assert ([Grouping(k, gs[0].elements + [x])] + gs[1..])[1..] == gs[1..];
    } else {
      AddToGroupsSum(gs[1..], k, x, f, h);
      assert ([gs[0]] + AddToGroups(gs[1..], k, x))[1..] == AddToGroups(gs[1..], k, x);
    }
  }
}
