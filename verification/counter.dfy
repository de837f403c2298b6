/**
 * The part of Python's `collections.Counter` that the palindrome and the
 * commit-statistics exercises use: the distinct elements of a sequence in
 * first-seen order (the counter's key order) and the count of each.
 */
module Counter {

  /** How many times `x` occurs in `s` (`Counter(s)[x]`). */
  function CountOf<T(==)>(s: seq<T>, x: T): (n: nat)
    ensures n == multiset(s)[x]
    ensures n > 0 <==> x in s
  {
    if s == [] then 0
    else
      assert s == s[..|s| - 1] + [s[|s| - 1]];
      CountOf(s[..|s| - 1], x) + (if s[|s| - 1] == x then 1 else 0)
  }

  /** The keys of `Counter(s)`: every distinct element once, in the order of
      its first occurrence. */
  function Keys<T(==)>(s: seq<T>): (keys: seq<T>)
    ensures forall i :: 0 <= i < |keys| ==> keys[i] in s
    ensures forall i :: 0 <= i < |s| ==> s[i] in keys
    ensures NoDuplicates(keys)
  {
    if s == [] then []
    else
      var prefix := Keys(s[..|s| - 1]);
      var last := s[|s| - 1];
      assert s == s[..|s| - 1] + [last];
      if last in prefix then prefix else prefix + [last]
  }

  predicate NoDuplicates<T(==)>(s: seq<T>)
  {
    forall i, j :: 0 <= i < j < |s| ==> s[i] != s[j]
  }

  /** The index of the first occurrence of `x` in `s`. */
  function FirstIndex<T(==)>(s: seq<T>, x: T): (i: nat)
    requires x in s
    ensures i < |s| && s[i] == x && x !in s[..i]
  {
    if s[0] == x then 0 else 1 + FirstIndex(s[1..], x)
  }

  /** The counter's keys are ordered by first occurrence. */
  lemma {:induction false} KeysInFirstSeenOrder<T>(s: seq<T>, i: nat, j: nat)
    requires i < j < |Keys(s)|
    ensures FirstIndex(s, Keys(s)[i]) < FirstIndex(s, Keys(s)[j])
  {
    var prefix := s[..|s| - 1];
    var last := s[|s| - 1];
    assert s == prefix + [last];
    var x, y := Keys(s)[i], Keys(s)[j];
    if j < |Keys(prefix)| {
      KeysInFirstSeenOrder(prefix, i, j);
      FirstIndexOfPrefix(prefix, last, x);
      FirstIndexOfPrefix(prefix, last, y);
    } else {
      // y is the last element, seen for the first time at the end of s
      assert y == last && last !in prefix;
      FirstIndexOfPrefix(prefix, last, x);
      assert x in prefix;
      assert FirstIndex(s, y) == |prefix|;
    }
  }

  lemma {:induction false} FirstIndexOfPrefix<T>(prefix: seq<T>, last: T, x: T)
    requires x in prefix
    ensures FirstIndex(prefix + [last], x) == FirstIndex(prefix, x)
  {
    if prefix[0] != x {
      assert (prefix + [last])[1..] == prefix[1..] + [last];
      FirstIndexOfPrefix(prefix[1..], last, x);
    }
  }
}
