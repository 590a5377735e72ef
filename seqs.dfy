/** Order-preserving operations on sequences: the Java stream `filter` and `map` stages. */
module Seqs {

  /** The elements of `s` that satisfy `p`, in their order in `s` (`Stream.filter`). */
  function Filter<T>(s: seq<T>, p: T -> bool): (r: seq<T>)
    ensures |r| <= |s|
    ensures forall i :: 0 <= i < |r| ==> r[i] in s && p(r[i])
    ensures forall i :: 0 <= i < |s| && p(s[i]) ==> s[i] in r
  {
    if s == [] then [] else if p(s[0]) then [s[0]] + Filter(s[1..], p) else Filter(s[1..], p)
  }

  /** `f` applied to every element of `s`, in order (`Stream.map`). */
  function Map<T, U>(s: seq<T>, f: T -> U): (r: seq<U>)
    ensures |r| == |s|
    ensures forall i :: 0 <= i < |s| ==> r[i] == f(s[i])
  {
    if s == [] then [] else [f(s[0])] + Map(s[1..], f)
  }

  /** The elements of `a` that also occur in `b`, in the order of `a`. */
  function Intersection<T(==)>(a: seq<T>, b: seq<T>): (r: seq<T>)
    ensures forall i :: 0 <= i < |r| ==> r[i] in a && r[i] in b
    ensures forall i :: 0 <= i < |a| && a[i] in b ==> a[i] in r
  {
    Filter(a, x => x in b)
  }

  /** Filtering distributes over concatenation: what comes first in `s1 + s2` stays first. */
  lemma {:induction false} FilterAppend<T>(s1: seq<T>, s2: seq<T>, p: T -> bool)
    ensures Filter(s1 + s2, p) == Filter(s1, p) + Filter(s2, p)
  {
    if s1 == [] {
      assert s1 + s2 == s2;
    } else {
      assert (s1 + s2)[1..] == s1[1..] + s2;
      FilterAppend(s1[1..], s2, p);
    }
  }

  /** Filtering twice is filtering once by the conjunction. */
  lemma {:induction false} FilterFilter<T>(s: seq<T>, p: T -> bool, q: T -> bool, pq: T -> bool)
    requires forall x :: pq(x) == (p(x) && q(x))
    ensures Filter(Filter(s, p), q) == Filter(s, pq)
  {
    if s != [] {
      FilterFilter(s[1..], p, q, pq);
    }
  }

  /** Filtering by a predicate and by its negation splits `s` without losing or duplicating anything. */
  lemma {:induction false} FilterPartition<T>(s: seq<T>, p: T -> bool, np: T -> bool)
    requires forall x :: np(x) == !p(x)
    ensures multiset(Filter(s, p)) + multiset(Filter(s, np)) == multiset(s)
  {
    if s != [] {
      var t := s[1..];
      assert s == [s[0]] + t;
      FilterCons(s[0], t, p);
      FilterCons(s[0], t, np);
      FilterPartition(t, p, np);
      assert multiset(s) == multiset{s[0]} + multiset(t);
    }
  }

  /** Filtering a sequence with a first element decides that element and filters the rest. */
  lemma FilterCons<T>(x: T, t: seq<T>, p: T -> bool)
    ensures Filter([x] + t, p) == if p(x) then [x] + Filter(t, p) else Filter(t, p)
  {
    assert ([x] + t)[1..] == t;
  }

  /** Element k of two mapped sequences joined: from the first while k is below its length, then from the second. */
  lemma MapConcatAt<T, U, V>(a: seq<T>, f: T -> V, b: seq<U>, g: U -> V)
    ensures |Map(a, f) + Map(b, g)| == |a| + |b|
    ensures forall k :: 0 <= k < |a| ==> (Map(a, f) + Map(b, g))[k] == f(a[k])
    ensures forall k :: |a| <= k < |a| + |b| ==> (Map(a, f) + Map(b, g))[k] == g(b[k - |a|])
  {
  }

  /** Every element of `s` is mapped into `Map(s, f)`. */
  lemma MapMember<T, U>(s: seq<T>, f: T -> U, x: T)
    requires x in s
    ensures f(x) in Map(s, f)
  {
    var i :| 0 <= i < |s| && s[i] == x;
    assert Map(s, f)[i] == f(x);
  }
}
