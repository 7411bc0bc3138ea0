/** `Array.prototype.filter` and the counting loops built on the same
    test, with the facts every page relies on: what is kept, in what order,
    and how often. */
module Seqs {

  /** `s.filter(p)`. */
  function Filter<T>(s: seq<T>, p: T -> bool): (r: seq<T>)
    ensures |r| <= |s|
    ensures forall k :: 0 <= k < |r| ==> p(r[k])
  {
    if s == [] then []
    else
      var rest := Filter(s[..|s| - 1], p);
      if p(s[|s| - 1]) then rest + [s[|s| - 1]] else rest
  }

  /** `r` is `s` with some elements left out, the rest in order. */
  predicate Subsequence<T(==)>(r: seq<T>, s: seq<T>)
    decreases |s|
  {
    r == [] ||
    (s != [] &&
     ((r[|r| - 1] == s[|s| - 1] && Subsequence(r[..|r| - 1], s[..|s| - 1])) ||
      Subsequence(r, s[..|s| - 1])))
  }

  /** The kept elements are in their original order. */
  lemma {:induction false} FilterInOrder<T>(s: seq<T>, p: T -> bool)
    ensures Subsequence(Filter(s, p), s)
  {
    if s != [] {
      var init := s[..|s| - 1];
      FilterInOrder(init, p);
      var r := Filter(s, p);
      if p(s[|s| - 1]) {
        assert r[..|r| - 1] == Filter(init, p);
      }
    }
  }

  /** Every element that passes is kept as often as it occurs; no other
      element is kept. */
  lemma {:induction false} FilterCounts<T>(s: seq<T>, p: T -> bool)
    ensures forall x :: multiset(Filter(s, p))[x] == if p(x) then multiset(s)[x] else 0
  {
    if s != [] {
      var init := s[..|s| - 1];
      var last := s[|s| - 1];
      assert s == init + [last];
      FilterCounts(init, p);
      var rest := Filter(init, p);
      var r := Filter(s, p);
      forall x ensures multiset(r)[x] == if p(x) then multiset(s)[x] else 0 {
        assert multiset(s)[x] == multiset(init)[x] + multiset([last])[x];
        if p(last) {
          assert r == rest + [last];
          assert multiset(r)[x] == multiset(rest)[x] + multiset([last])[x];
        }
      }
    }
  }

  /** An element is kept exactly when it occurs and passes. */
  lemma FilterMembers<T>(s: seq<T>, p: T -> bool)
    ensures forall x :: x in Filter(s, p) <==> x in s && p(x)
  {
    FilterCounts(s, p);
    forall x ensures x in Filter(s, p) <==> x in s && p(x) {
      assert x in Filter(s, p) <==> multiset(Filter(s, p))[x] > 0;
      assert x in s <==> multiset(s)[x] > 0;
    }
  }

  /** When everything passes nothing is dropped. */
  lemma {:induction false} FilterAllPass<T>(s: seq<T>, p: T -> bool)
    requires forall k :: 0 <= k < |s| ==> p(s[k])
    ensures Filter(s, p) == s
  {
    if s != [] {
      FilterAllPass(s[..|s| - 1], p);
    }
  }

  /** Filtering splits over concatenation. */
  lemma {:induction false} FilterAppend<T>(a: seq<T>, b: seq<T>, p: T -> bool)
    ensures Filter(a + b, p) == Filter(a, p) + Filter(b, p)
  {
    if b == [] {
      assert a + b == a;
    } else {
      var b' := b[..|b| - 1];
      assert (a + b)[..|a + b| - 1] == a + b';
      FilterAppend(a, b', p);
    }
  }

  /** Appending an element that fails the test, or appending any element
      when there is no extra run, keeps a trailing run at the end. */
  lemma FilterSwapLast<T>(t: seq<T>, init: seq<T>, last: T, run: seq<T>, p: T -> bool)
    requires Filter(t, p) == Filter(init, p) + run
    requires run == [] || !p(last)
    ensures Filter(t + [last], p) == Filter(init + [last], p) + run
  {
    assert (t + [last])[..|t|] == t;
    assert (init + [last])[..|init|] == init;
    if run == [] {
      assert Filter(init, p) + run == Filter(init, p);
      if p(last) {
        assert Filter(init + [last], p) + run == Filter(init + [last], p);
      }
    }
  }

  /** How many elements pass: the value a counter reaches when it is
      incremented once for every element that passes. */
  function Count<T>(s: seq<T>, p: T -> bool): (n: nat)
    ensures n <= |s|
  {
    if s == [] then 0 else Count(s[..|s| - 1], p) + (if p(s[|s| - 1]) then 1 else 0)
  }

  /** Counting the prefix one element longer. */
  lemma CountStep<T>(s: seq<T>, i: nat, p: T -> bool)
    requires i < |s|
    ensures Count(s[..i + 1], p) == Count(s[..i], p) + (if p(s[i]) then 1 else 0)
  {
    assert s[..i + 1][..i] == s[..i];
  }

  /** Counters of tests that never hold together add up to at most the
      number of elements. */
  lemma {:induction false} CountDisjoint<T>(s: seq<T>, p: T -> bool, q: T -> bool, r: T -> bool)
    requires forall x :: !(p(x) && q(x)) && !(p(x) && r(x)) && !(q(x) && r(x))
    ensures Count(s, p) + Count(s, q) + Count(s, r) <= |s|
  {
    if s != [] {
      CountDisjoint(s[..|s| - 1], p, q, r);
    }
  }
}
