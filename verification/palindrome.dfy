/**
 * Model of examples/palindrome_task/main.py: `can_be_palindrome` counts the
 * characters of its input with a `Counter`, adds up `count % 2` over the
 * counts, and answers whether fewer than two characters occur an odd number
 * of times.
 */
module Palindrome {
  import opened Counter

  /** At most one character occurs an odd number of times in the bag `m`. */
  ghost predicate AtMostOneOdd(m: multiset<char>)
  {
    forall a, b :: OddIn(m, a) && OddIn(m, b) ==> a == b
  }

  /** `c` occurs an odd number of times in `m`. */
  ghost predicate OddIn(m: multiset<char>, c: char)
  {
    m[c] % 2 == 1
  }

  /** `t` reads the same backwards: positions `i` and `j` mirror each other
      when `i + j == |t| - 1`. */
  predicate IsPalindrome(t: string)
  {
    forall i, j :: 0 <= i < |t| && 0 <= j < |t| && i + j == |t| - 1 ==> t[i] == t[j]
  }

  /** `sum(count % 2 for count in Counter(s).values())`, with the counter's
      values taken key by key. */
  function OddEntriesCount(s: string, keys: seq<char>): nat
  {
    if keys == [] then 0
    else OddEntriesCount(s, keys[..|keys| - 1]) + CountOf(s, keys[|keys| - 1]) % 2
  }

  /** The keys among `keys` whose count in `s` is odd. */
  ghost function OddKeys(s: string, keys: seq<char>): set<char>
  {
    set c | c in keys && CountOf(s, c) % 2 == 1
  }

  /** `can_be_palindrome(s)`: true exactly when fewer than two distinct
      characters occur an odd number of times. */
  function CanBePalindrome(s: string): (r: bool)
    ensures r <==> AtMostOneOdd(multiset(s))
  {
    OddEntriesCountIsOddKeys(s, Keys(s));
    FewOddKeys(s);
    OddEntriesCount(s, Keys(s)) < 2
  }

  /** Summing `count % 2` over distinct keys counts the keys with an odd count. */
  lemma {:induction false} OddEntriesCountIsOddKeys(s: string, keys: seq<char>)
    requires NoDuplicates(keys)
    ensures OddEntriesCount(s, keys) == |OddKeys(s, keys)|
  {
    if keys != [] {
      var init, last := keys[..|keys| - 1], keys[|keys| - 1];
      assert keys == init + [last];
      OddEntriesCountIsOddKeys(s, init);
      assert last !in init;
      if CountOf(s, last) % 2 == 1 {
        assert OddKeys(s, keys) == OddKeys(s, init) + {last};
      } else {
        assert OddKeys(s, keys) == OddKeys(s, init);
      }
    }
  }

  /** Fewer than two odd keys of the counter means at most one odd character. */
  lemma FewOddKeys(s: string)
    ensures |OddKeys(s, Keys(s))| < 2 <==> AtMostOneOdd(multiset(s))
  {
    var odd := OddKeys(s, Keys(s));
    var m := multiset(s);
    forall c ensures c in odd <==> OddIn(m, c) {
      OddKeyIsOddChar(s, c);
    }
    if |odd| >= 2 {
      var a, b := TwoMembers(odd);
      assert OddIn(m, a) && OddIn(m, b);
    }
    if !AtMostOneOdd(m) {
      var a, b :| OddIn(m, a) && OddIn(m, b) && a != b;
      AtLeastTwo(odd, a, b);
    }
  }

  /** A set of at least two elements has two different members. */
  lemma TwoMembers(odd: set<char>) returns (a: char, b: char)
    requires |odd| >= 2
    ensures a in odd && b in odd && a != b
  {
    a :| a in odd;
    assert |odd - {a}| >= 1;
    b :| b in odd - {a};
  }

  /** A set with two different members has at least two elements. */
  lemma AtLeastTwo(odd: set<char>, a: char, b: char)
    requires a in odd && b in odd && a != b
    ensures |odd| >= 2
  {
    var rest := odd - {a, b};
    assert odd == {a, b} + rest;
  }

  lemma OddKeyIsOddChar(s: string, c: char)
    ensures c in OddKeys(s, Keys(s)) <==> OddIn(multiset(s), c)
  {
    if OddIn(multiset(s), c) {
      assert c in s;
      assert s[FirstIndex(s, c)] == c;
      assert c in Keys(s);
    }
  }

  /** Adding a pair of equal characters changes no parity. */
  lemma ParityAfterPair(n: multiset<char>, a: char, x: char)
    ensures OddIn(n + multiset{a, a}, x) == OddIn(n, x)
  {
    var m := n + multiset{a, a};
    if x == a {
      assert m[x] == n[x] + 2;
    } else {
      assert m[x] == n[x];
    }
  }

  /** The answer depends only on how often each character occurs, so it is
      the same for every rearrangement of the input. */
  lemma PermutationInvariant(s: string, t: string)
    requires multiset(s) == multiset(t)
    ensures CanBePalindrome(s) == CanBePalindrome(t)
  {
  }

  /** Every palindrome has at most one character of odd count. */
  lemma {:induction false} PalindromeAtMostOneOdd(t: string)
    requires IsPalindrome(t)
    ensures AtMostOneOdd(multiset(t))
  {
    if |t| <= 1 {
      forall a, b | OddIn(multiset(t), a) && OddIn(multiset(t), b) ensures a == b {
        assert a in multiset(t);
        assert a == t[0] && b == t[0];
      }
    } else {
      var a, mid := t[0], t[1..|t| - 1];
      assert t[|t| - 1] == a;
      assert t == [a] + mid + [a];
      assert IsPalindrome(mid) by {
        forall i, j | 0 <= i < |mid| && 0 <= j < |mid| && i + j == |mid| - 1
          ensures mid[i] == mid[j]
        {
          assert mid[i] == t[i + 1] && mid[j] == t[j + 1];
        }
      }
      PalindromeAtMostOneOdd(mid);
      var m, n := multiset(t), multiset(mid);
      assert m == n + multiset{a, a};
      forall x, y | OddIn(m, x) && OddIn(m, y) ensures x == y {
        ParityAfterPair(n, a, x);
        ParityAfterPair(n, a, y);
      }
    }
  }

  /** Every palindrome passes the check. */
  lemma PalindromeCanBePalindrome(t: string)
    requires IsPalindrome(t)
    ensures CanBePalindrome(t)
  {
    PalindromeAtMostOneOdd(t);
  }

  /** A palindrome whose characters are exactly the bag `m`, built from the
      outside in; it exists whenever at most one character count is odd. */
  ghost function Arrange(m: multiset<char>): (t: string)
    requires AtMostOneOdd(m)
    ensures multiset(t) == m && IsPalindrome(t)
    decreases |m|
  {
    if exists c :: c in m && m[c] >= 2 then
      var c :| c in m && m[c] >= 2;
      var rest := m - multiset{c, c};
      assert m == rest + multiset{c, c};
      assert AtMostOneOdd(rest) by {
        forall x, y | OddIn(rest, x) && OddIn(rest, y) ensures x == y {
          ParityAfterPair(rest, c, x);
          ParityAfterPair(rest, c, y);
        }
      }
      var inner := Arrange(rest);
      PalindromeWrap(c, inner);
      [c] + inner + [c]
    else if m == multiset{} then
      []
    else
      var c :| c in m;
      NoPairIsSingleton(m, c);
      [c]
  }

  /** Putting the same character on both ends of a palindrome gives one. */
  lemma PalindromeWrap(c: char, inner: string)
    requires IsPalindrome(inner)
    ensures IsPalindrome([c] + inner + [c])
    ensures multiset([c] + inner + [c]) == multiset(inner) + multiset{c, c}
  {
    var t := [c] + inner + [c];
    forall i, j | 0 <= i < |t| && 0 <= j < |t| && i + j == |t| - 1
      ensures t[i] == t[j]
    {
      if 0 < i < |t| - 1 {
        assert t[i] == inner[i - 1] && t[j] == inner[j - 1];
      }
    }
  }

  /** A non-empty bag with at most one odd count and no count above one
      holds a single character once. */
  lemma NoPairIsSingleton(m: multiset<char>, c: char)
    requires AtMostOneOdd(m) && c in m
    requires !exists d :: d in m && m[d] >= 2
    ensures m == multiset{c}
  {
    forall x ensures m[x] == multiset{c}[x] {
      if x in m && x != c {
        assert OddIn(m, x) && OddIn(m, c);
      }
    }
  }

  /** What the docstring promises: the check passes exactly when some
      rearrangement of the input is a palindrome. */
  lemma CanBePalindromeIffRearrangeable(s: string)
    ensures CanBePalindrome(s) <==> exists t :: multiset(t) == multiset(s) && IsPalindrome(t)
  {
    if CanBePalindrome(s) {
      var t := Arrange(multiset(s));
      assert multiset(t) == multiset(s) && IsPalindrome(t);
    }
    if t :| multiset(t) == multiset(s) && IsPalindrome(t) {
      PalindromeAtMostOneOdd(t);
    }
  }

  /** The cases the exercise's own tests check. */
  lemma OddLengthExample()
    ensures CanBePalindrome("abcdcba")
  {
    AbcdcbaIsPalindrome();
    PalindromeCanBePalindrome("abcdcba");
  }

  lemma AbcdcbaIsPalindrome()
    ensures IsPalindrome("abcdcba")
  {
  }

  lemma ShortExamples()
    ensures CanBePalindrome("a") && CanBePalindrome("")
  {
    PalindromeCanBePalindrome("a");
    PalindromeCanBePalindrome("");
  }

  lemma RearrangedExample()
    ensures CanBePalindrome("aabbcc")
  {
    AbccbaIsPalindrome();
    PalindromeAtMostOneOdd("abccba");
    assert multiset("aabbcc") == multiset("abccba");
  }

  lemma AbccbaIsPalindrome()
    ensures IsPalindrome("abccba")
  {
  }

  lemma RejectedExample()
    ensures !CanBePalindrome("abcde")
  {
    var n := multiset("abcde");
    assert n['a'] == 1 && n['b'] == 1;
    assert OddIn(n, 'a') && OddIn(n, 'b');
  }
}
