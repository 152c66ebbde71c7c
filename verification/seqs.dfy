/** Facts about sequences that the aggregation relies on: the list of distinct
    elements in first-occurrence order (which is both what appending "unless
    already present" builds and the key order of a Python dict or Counter),
    and sums of occurrence counts. */
module Seqs {

  /** No element of `s` occurs twice. */
  ghost predicate Distinct<T>(s: seq<T>) {
    forall i, j :: 0 <= i < j < |s| ==> s[i] != s[j]
  }

  /** The distinct elements of `s`, each at its first occurrence: the list that
      walking `s` left to right and appending every element not yet present
      produces. */
  function Unique<T(==,!new)>(s: seq<T>): (u: seq<T>)
    ensures Distinct(u)
    ensures forall x :: x in u <==> x in s
    ensures |u| <= |s|
  {
    if |s| == 0 then []
    else
      var init, last := s[..|s| - 1], s[|s| - 1];
      assert s == init + [last];
      var u := Unique(init);
      if last in u then u else u + [last]
  }

  /** The position of the first occurrence of `x` in `s`. */
  function FirstIndex<T(==)>(s: seq<T>, x: T): (i: nat)
    requires x in s
    ensures i < |s| && s[i] == x && x !in s[..i]
  {
    var init := s[..|s| - 1];
    assert s == init + [s[|s| - 1]];
    if x in init then
      var i := FirstIndex(init, x);
      assert s[..i] == init[..i];
      i
    else
      |s| - 1
  }

  /** Elements of a prefix keep their first position when the sequence grows. */
  lemma FirstIndexOfPrefix<T>(s: seq<T>, x: T, n: nat)
    requires n <= |s| && x in s[..n]
    ensures FirstIndex(s, x) == FirstIndex(s[..n], x)
  {
    var i, k := FirstIndex(s, x), FirstIndex(s[..n], x);
    assert s[..n][..k] == s[..k];
  }

  /** `Unique` lists the distinct elements in the order of their first
      occurrences. */
  lemma {:induction false} UniqueKeepsFirstOccurrenceOrder<T(!new)>(s: seq<T>)
    ensures forall i, j :: 0 <= i < j < |Unique(s)| ==>
      Unique(s)[i] in s && Unique(s)[j] in s &&
      FirstIndex(s, Unique(s)[i]) < FirstIndex(s, Unique(s)[j])
  {
    if |s| > 0 {
      var init, last := s[..|s| - 1], s[|s| - 1];
      assert s == init + [last];
      var u, u' := Unique(s), Unique(init);
      UniqueKeepsFirstOccurrenceOrder(init);
      forall i, j | 0 <= i < j < |u|
        ensures u[i] in s && u[j] in s && FirstIndex(s, u[i]) < FirstIndex(s, u[j])
      {
        assert u[i] in u' by { assert i < |u'|; }
        FirstIndexOfPrefix(s, u[i], |s| - 1);
        if j < |u'| {
          assert u[j] in u';
          FirstIndexOfPrefix(s, u[j], |s| - 1);
        } else {
          assert u[j] == last && last !in init;
        }
      }
      assert u == Unique(s);
    } else {
      assert |Unique(s)| == 0;
    }
  }

  /** The first element of `s` heads its list of distinct elements. */
  lemma {:induction false} UniqueHead<T(!new)>(s: seq<T>)
    requires |s| > 0
    ensures |Unique(s)| > 0 && Unique(s)[0] == s[0]
  {
    var init := s[..|s| - 1];
    if |init| > 0 {
      UniqueHead(init);
    }
  }

  /** A sequence made of one value repeated has that value as its only
      distinct element, once per position in its multiset. */
  lemma {:induction false} UniqueOfConstant<T(!new)>(s: seq<T>, x: T)
    requires |s| > 0 && forall i :: 0 <= i < |s| ==> s[i] == x
    ensures Unique(s) == [x]
    ensures multiset(s)[x] == |s|
  {
    var init := s[..|s| - 1];
    assert s == init + [x];
    if |init| > 0 {
      UniqueOfConstant(init, x);
    }
  }

  /** Sum, over the elements of `keys`, of how often each occurs in `s`. */
  function CountSum<T(==)>(s: seq<T>, keys: seq<T>): nat {
    if |keys| == 0 then 0
    else CountSum(s, keys[..|keys| - 1]) + multiset(s)[keys[|keys| - 1]]
  }

  /** Appending `x` to `s` raises the sum over distinct `keys` by one exactly
      when `x` is one of the keys. */
  lemma {:induction false} CountSumSnoc<T>(s: seq<T>, x: T, keys: seq<T>)
    requires Distinct(keys)
    ensures CountSum(s + [x], keys) == CountSum(s, keys) + (if x in keys then 1 else 0)
  {
    if |keys| > 0 {
      var init, last := keys[..|keys| - 1], keys[|keys| - 1];
      assert keys == init + [last];
      CountSumSnoc(s, x, init);
      assert multiset(s + [x]) == multiset(s) + multiset{x};
    }
  }

  /** The occurrence counts of the distinct elements add up to the length. */
  lemma {:induction false} CountSumUnique<T(!new)>(s: seq<T>)
    ensures CountSum(s, Unique(s)) == |s|
  {
    if |s| > 0 {
      var init, last := s[..|s| - 1], s[|s| - 1];
      assert s == init + [last];
      var u' := Unique(init);
      CountSumUnique(init);
      CountSumSnoc(init, last, u');
      if last !in u' {
        assert Unique(s) == u' + [last];
        assert (u' + [last])[..|u'|] == u';
        assert multiset(s)[last] == multiset(init)[last] + 1;
        assert multiset(init)[last] == 0;
      }
    }
  }
}
