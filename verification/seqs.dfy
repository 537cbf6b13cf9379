/** Sequence vocabulary used across the model: distinctness, order-preserving
    sub-sequences, first-occurrence de-duplication (`Array.from(new Set(xs))`)
    and `slice(0, n)`. */
module Seqs {

  predicate Distinct<T(==)>(s: seq<T>) {
    forall i, j :: 0 <= i < j < |s| ==> s[i] != s[j]
  }

  predicate IsPrefix<T(==)>(a: seq<T>, s: seq<T>) {
    |a| <= |s| && s[..|a|] == a
  }

  predicate IsSuffix<T(==)>(a: seq<T>, s: seq<T>) {
    |a| <= |s| && s[|s| - |a|..] == a
  }

  lemma ConcatEnds<T>(a: seq<T>, b: seq<T>)
    ensures IsPrefix(a, a + b) && IsSuffix(b, a + b)
  {
    assert (a + b)[..|a|] == a;
    assert (a + b)[|a|..] == b;
  }

  /** `xs.map(f)`: each element converted, in order. */
  function Map<T, U>(xs: seq<T>, f: T -> U): (r: seq<U>)
    ensures |r| == |xs|
    ensures forall i :: 0 <= i < |xs| ==> r[i] == f(xs[i])
  {
    seq(|xs|, i requires 0 <= i < |xs| => f(xs[i]))
  }

  /** `a` is `b` with some elements dropped and the rest kept in order. */
  predicate IsSubsequence<T(==)>(a: seq<T>, b: seq<T>)
    decreases |b|
  {
    if |a| == 0 then true
    else if |b| == 0 then false
    else if a[0] == b[0] then IsSubsequence(a[1..], b[1..])
    else IsSubsequence(a, b[1..])
  }

  lemma {:induction false} SubsequenceElements<T>(a: seq<T>, b: seq<T>)
    requires IsSubsequence(a, b)
    ensures forall x :: x in a ==> x in b
    ensures |a| <= |b|
    decreases |b|
  {
    if |a| > 0 {
      if a[0] == b[0] {
        SubsequenceElements(a[1..], b[1..]);
        assert a == [a[0]] + a[1..];
        assert b == [b[0]] + b[1..];
      } else {
        SubsequenceElements(a, b[1..]);
        assert b == [b[0]] + b[1..];
      }
    }
  }

  lemma {:induction false} SubsequenceAppend<T>(a: seq<T>, b: seq<T>, x: T)
    requires IsSubsequence(a, b)
    ensures IsSubsequence(a, b + [x])
    ensures IsSubsequence(a + [x], b + [x])
    decreases |b|
  {
    if |a| == 0 {
      assert IsSubsequence([x], [x]);
      if |b| > 0 {
        assert (b + [x])[1..] == b[1..] + [x];
        SubsequenceAppend(a, b[1..], x);
        assert (a + [x]) == [x];
      }
    } else {
      assert (b + [x])[1..] == b[1..] + [x];
      assert (a + [x])[1..] == a[1..] + [x];
      if a[0] == b[0] {
        SubsequenceAppend(a[1..], b[1..], x);
      } else {
        SubsequenceAppend(a, b[1..], x);
      }
    }
  }

  /** The position of the first occurrence of `x` in `s`. */
  function FirstIndex<T(==)>(s: seq<T>, x: T): (k: nat)
    requires x in s
    ensures k < |s| && s[k] == x
    ensures forall j :: 0 <= j < k ==> s[j] != x
  {
    if s[0] == x then 0 else 1 + FirstIndex(s[1..], x)
  }

  /** Elements listed in the order of their first occurrences in `s`. */
  predicate InFirstOccurrenceOrder<T(==)>(r: seq<T>, s: seq<T>)
    requires forall i :: 0 <= i < |r| ==> r[i] in s
  {
    forall i, j :: 0 <= i < j < |r| ==> FirstIndex(s, r[i]) < FirstIndex(s, r[j])
  }

  /** Appending to `s` keeps the first occurrences of what `s` already had,
      and a new element occurs first after all of them. */
  lemma FirstOrderAppend<T>(d: seq<T>, s: seq<T>, x: T)
    requires forall i :: 0 <= i < |d| ==> d[i] in s
    requires InFirstOccurrenceOrder(d, s)
    ensures forall i :: 0 <= i < |d| ==> FirstIndex(s + [x], d[i]) == FirstIndex(s, d[i])
    ensures InFirstOccurrenceOrder(d, s + [x])
    ensures x !in s ==> InFirstOccurrenceOrder(d + [x], s + [x])
  {
    var t := s + [x];
    forall i | 0 <= i < |d|
      ensures FirstIndex(t, d[i]) == FirstIndex(s, d[i])
    {
      assert t[FirstIndex(s, d[i])] == d[i];
    }
    if x !in s {
      var e := d + [x];
      forall i, j | 0 <= i < j < |e|
        ensures FirstIndex(t, e[i]) < FirstIndex(t, e[j])
      {
        if j == |d| {
          assert FirstIndex(t, x) == |s|;
        }
      }
    }
  }

  /** First-occurrence de-duplication: insertion order of a JavaScript `Set`
      (the order itself is `DedupOrder`). */
  function Dedup<T(==)>(s: seq<T>): (r: seq<T>)
    ensures Distinct(r)
    ensures forall i :: 0 <= i < |r| ==> r[i] in s
    ensures forall i :: 0 <= i < |s| ==> s[i] in r
    ensures IsSubsequence(r, s)
    ensures Distinct(s) ==> r == s
  {
    if |s| == 0 then []
    else
      var init := s[..|s| - 1];
      var last := s[|s| - 1];
      assert s == init + [last];
      var d := Dedup(init);
      SubsequenceAppend(d, init, last);
      if last in d then d else d + [last]
  }

  /** `Dedup` lists each element at the place of its first occurrence: the
      kept elements appear in the order they first occur in `s`. */
  lemma {:induction false} DedupOrder<T>(s: seq<T>)
    ensures InFirstOccurrenceOrder(Dedup(s), s)
  {
    if |s| > 0 {
      var init := s[..|s| - 1];
      var last := s[|s| - 1];
      assert s == init + [last];
      DedupOrder(init);
      FirstOrderAppend(Dedup(init), init, last);
    }
  }

  /** `xs.slice(0, n)`. */
  function Take<T>(s: seq<T>, n: nat): (r: seq<T>)
    ensures |r| == if n < |s| then n else |s|
    ensures r == s[..|r|]
  {
    if n < |s| then s[..n] else s
  }
}
