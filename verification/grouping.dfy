/** Grouping a list by a key and listing the groups in a fixed key order,
    leaving out keys without members: the shape shared by the hospital-bag
    sections and the achievement categories, where a `Map`/record of arrays
    is filled in list order and then read through
    `order.filter(has).map(...)`. */
module Grouping {
  import opened Seqs
  import opened Sql

  /** The members with key `k`, in list order (the array the grouping loop
      builds for `k`). */
  function Group<T(==), K(==)>(xs: seq<T>, key: T -> K, k: K): (r: seq<T>)
    ensures |r| <= |xs|
    ensures forall i :: 0 <= i < |r| ==> key(r[i]) == k
    ensures IsSubsequence(r, xs)
  {
    if |xs| == 0 then []
    else
      var rest := Group(xs[1..], key, k);
      if key(xs[0]) == k then
        assert ([xs[0]] + rest)[1..] == rest;
        [xs[0]] + rest
      else
        assert |rest| > 0 ==> rest[0] != xs[0];
        rest
  }

  /** Some member has key `k`: the grouping has an array for `k`. */
  predicate Present<T, K(==)>(xs: seq<T>, key: T -> K, k: K) {
    exists i :: 0 <= i < |xs| && key(xs[i]) == k
  }

  function PresentIn<T, K(==)>(xs: seq<T>, key: T -> K): K -> bool {
    k => Present(xs, key, k)
  }

  /** The keys of `order` that have a group, in `order`'s order. */
  function Shown<T, K(==)>(xs: seq<T>, key: T -> K, order: seq<K>): seq<K> {
    Filter(order, PresentIn(xs, key))
  }

  /** A group holds exactly the members with its key: each of them, only
      members of the list, in list order, and it is empty exactly when no
      member has it (how often each appears is `GroupCounts`). */
  lemma {:induction false} GroupExact<T, K>(xs: seq<T>, key: T -> K, k: K)
    ensures forall i :: 0 <= i < |xs| && key(xs[i]) == k ==> xs[i] in Group(xs, key, k)
    ensures forall x :: x in Group(xs, key, k) ==> x in xs
    ensures IsSubsequence(Group(xs, key, k), xs)
    ensures |Group(xs, key, k)| > 0 <==> Present(xs, key, k)
  {
    if |xs| > 0 {
      GroupExact(xs[1..], key, k);
      assert xs == [xs[0]] + xs[1..];
    }
  }

  /** A group holds each member with its key as often as the list does, and
      nothing else. */
  lemma {:induction false} GroupCounts<T, K>(xs: seq<T>, key: T -> K, k: K)
    ensures forall x :: multiset(Group(xs, key, k))[x] == if key(x) == k then multiset(xs)[x] else 0
  {
    if |xs| > 0 {
      GroupCounts(xs[1..], key, k);
      assert xs == [xs[0]] + xs[1..];
      assert multiset(xs) == multiset{xs[0]} + multiset(xs[1..]);
    }
  }

  /** The shown keys are exactly the keys of `order` with members. */
  lemma ShownExact<T, K>(xs: seq<T>, key: T -> K, order: seq<K>)
    ensures IsSubsequence(Shown(xs, key, order), order)
    ensures forall k :: k in Shown(xs, key, order) ==> Present(xs, key, k)
    ensures forall j :: 0 <= j < |order| && Present(xs, key, order[j]) ==> order[j] in Shown(xs, key, order)
  {
    var f := PresentIn(xs, key);
    assert forall j :: 0 <= j < |order| && Present(xs, key, order[j]) ==> f(order[j]);
  }

  /** Every shown key has a non-empty group. */
  lemma ShownGroupsNonEmpty<T, K>(xs: seq<T>, key: T -> K, order: seq<K>)
    ensures forall k :: k in Shown(xs, key, order) ==> |Group(xs, key, k)| > 0
  {
    ShownExact(xs, key, order);
    forall k | k in Shown(xs, key, order) ensures |Group(xs, key, k)| > 0 {
      GroupExact(xs, key, k);
    }
  }

  /** The sum of a weight over a list (`reduce((sum, a) => sum + w(a), 0)`). */
  function Total<T>(xs: seq<T>, w: T -> int): int {
    if |xs| == 0 then 0 else w(xs[0]) + Total(xs[1..], w)
  }

  /** A weight that grows pointwise gives a total that grows. */
  lemma {:induction false} TotalMonotone<T>(xs: seq<T>, ys: seq<T>, w: T -> int)
    requires |xs| == |ys|
    requires forall i :: 0 <= i < |xs| ==> w(xs[i]) <= w(ys[i])
    ensures Total(xs, w) <= Total(ys, w)
  {
    if |xs| > 0 {
      assert forall i :: 0 <= i < |xs[1..]| ==> xs[1..][i] == xs[i + 1] && ys[1..][i] == ys[i + 1];
      TotalMonotone(xs[1..], ys[1..], w);
    }
  }

  /** The sum of the group totals over the keys of `order`. */
  function GroupTotals<T(==), K(==)>(xs: seq<T>, key: T -> K, w: T -> int, order: seq<K>): int {
    if |order| == 0 then 0
    else Total(Group(xs, key, order[0]), w) + GroupTotals(xs, key, w, order[1..])
  }

  /** `v` once for every occurrence of `k` in `order`. */
  function Hits<K(==)>(order: seq<K>, k: K, v: int): int {
    if |order| == 0 then 0
    else (if order[0] == k then v else 0) + Hits(order[1..], k, v)
  }

  lemma {:induction false} HitsOnce<K>(order: seq<K>, k: K, v: int)
    requires Distinct(order) && k in order
    ensures Hits(order, k, v) == v
  {
    if order[0] != k {
      HitsOnce(order[1..], k, v);
    } else {
      HitsNone(order[1..], k, v);
    }
  }

  lemma {:induction false} HitsNone<K>(order: seq<K>, k: K, v: int)
    requires k !in order
    ensures Hits(order, k, v) == 0
  {
    if |order| > 0 {
      HitsNone(order[1..], k, v);
    }
  }

  /** Taking the first member off the list lowers exactly the totals of the
      groups with its key. */
  lemma {:induction false} PeelFirst<T, K>(xs: seq<T>, key: T -> K, w: T -> int, order: seq<K>)
    requires |xs| > 0
    ensures GroupTotals(xs, key, w, order) == GroupTotals(xs[1..], key, w, order) + Hits(order, key(xs[0]), w(xs[0]))
  {
    if |order| > 0 {
      PeelFirst(xs, key, w, order[1..]);
      var g := Group(xs, key, order[0]);
      var rest := Group(xs[1..], key, order[0]);
      if key(xs[0]) == order[0] {
        assert g == [xs[0]] + rest;
        assert g[1..] == rest;
        assert Total(g, w) == w(xs[0]) + Total(rest, w);
      } else {
        assert g == rest;
      }
    }
  }

  /** When every member's key occurs once in `order`, the groups partition
      the list: the group totals add up to the list's total, for any weight. */
  lemma {:induction false} GroupsPartition<T, K>(xs: seq<T>, key: T -> K, w: T -> int, order: seq<K>)
    requires Distinct(order)
    requires forall i :: 0 <= i < |xs| ==> key(xs[i]) in order
    ensures GroupTotals(xs, key, w, order) == Total(xs, w)
  {
    if |xs| == 0 {
      EmptyGroupTotals(xs, key, w, order);
    } else {
      assert forall i :: 0 <= i < |xs[1..]| ==> xs[1..][i] == xs[i + 1];
      GroupsPartition(xs[1..], key, w, order);
      PeelFirst(xs, key, w, order);
      HitsOnce(order, key(xs[0]), w(xs[0]));
    }
  }

  lemma {:induction false} EmptyGroupTotals<T, K>(xs: seq<T>, key: T -> K, w: T -> int, order: seq<K>)
    requires |xs| == 0
    ensures GroupTotals(xs, key, w, order) == 0
  {
    if |order| > 0 {
      EmptyGroupTotals(xs, key, w, order[1..]);
    }
  }

  /** Leaving out the keys without members does not change the totals. */
  lemma {:induction false} ShownTotals<T, K>(xs: seq<T>, key: T -> K, w: T -> int, order: seq<K>)
    ensures GroupTotals(xs, key, w, Shown(xs, key, order)) == GroupTotals(xs, key, w, order)
  {
    if |order| > 0 {
      ShownTotals(xs, key, w, order[1..]);
      GroupExact(xs, key, order[0]);
      var f := PresentIn(xs, key);
      assert Shown(xs, key, order) == if f(order[0]) then [order[0]] + Shown(xs, key, order[1..]) else Shown(xs, key, order[1..]);
    }
  }
}
