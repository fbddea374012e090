/** Sorting a list by a key under a total preorder: Ruby `sort_by`, and JavaScript `Array.prototype.sort`
    with a comparator. The result is sorted and is a permutation of the input. */
module Sorting {
  import Text

  /** `le` is total and transitive on keys. */
  ghost predicate TotalPreorder<K(!new)>(le: (K, K) -> bool) {
    && (forall a, b :: le(a, b) || le(b, a))
    && (forall a, b, c :: le(a, b) && le(b, c) ==> le(a, c))
  }

  predicate SortedBy<T, K>(s: seq<T>, key: T -> K, le: (K, K) -> bool) {
    forall i, j :: 0 <= i < j < |s| ==> le(key(s[i]), key(s[j]))
  }

  /** Inserts `x` before the first element it is ordered before. */
  function InsertBy<T, K(!new)>(x: T, s: seq<T>, key: T -> K, le: (K, K) -> bool): (r: seq<T>)
    requires TotalPreorder(le) && SortedBy(s, key, le)
    ensures SortedBy(r, key, le)
    ensures multiset(r) == multiset(s) + multiset{x}
    decreases |s|
  {
    if |s| == 0 then [x]
    else if le(key(x), key(s[0])) then
      assert SortedBy([x] + s, key, le) by { ConsSorted(x, s, key, le); }
      [x] + s
    else
      var rest := InsertBy(x, s[1..], key, le);
      assert s == [s[0]] + s[1..];
      assert SortedBy([s[0]] + rest, key, le) by {
        forall y | y in rest ensures le(key(s[0]), key(y)) {
          assert y in multiset(rest);
          if y != x {
            assert y in multiset(s[1..]);
            var k :| 0 <= k < |s[1..]| && s[1..][k] == y;
            assert s[k + 1] == y;
          }
        }
        ConsSorted(s[0], rest, key, le);
      }
      [s[0]] + rest
  }

  /** Putting `x` in front of a sorted list keeps it sorted when `x` is ordered before its elements. */
  lemma ConsSorted<T, K(!new)>(x: T, s: seq<T>, key: T -> K, le: (K, K) -> bool)
    requires TotalPreorder(le) && SortedBy(s, key, le)
    requires (forall y :: y in s ==> le(key(x), key(y))) || (|s| > 0 && le(key(x), key(s[0])))
    ensures SortedBy([x] + s, key, le)
  {
    var r := [x] + s;
    forall i, j | 0 <= i < j < |r| ensures le(key(r[i]), key(r[j])) {
      if i == 0 {
        if forall y :: y in s ==> le(key(x), key(y)) {
          assert r[j] in s;
        } else if j > 1 {
          assert le(key(s[0]), key(s[j - 1]));
        }
      } else {
        assert r[i] == s[i - 1] && r[j] == s[j - 1];
      }
    }
  }

  /** The list sorted by `key`. */
  function SortBy<T, K(!new)>(s: seq<T>, key: T -> K, le: (K, K) -> bool): (r: seq<T>)
    requires TotalPreorder(le)
    ensures SortedBy(r, key, le)
    ensures multiset(r) == multiset(s)
    ensures |r| == |s|
    decreases |s|
  {
    if |s| == 0 then []
    else
      assert s == [s[0]] + s[1..];
      var r := InsertBy(s[0], SortBy(s[1..], key, le), key, le);
      assert |r| == |multiset(r)|;
      r
  }

  /** Sorting keeps exactly the elements of the input. */
  lemma SortByMembership<T, K(!new)>(s: seq<T>, key: T -> K, le: (K, K) -> bool, x: T)
    requires TotalPreorder(le)
    ensures x in SortBy(s, key, le) <==> x in s
  {
    var r := SortBy(s, key, le);
    assert x in r <==> x in multiset(r);
    assert x in s <==> x in multiset(s);
  }

  /** The natural order on integers. */
  predicate IntLe(a: int, b: int) {
    a <= b
  }

  lemma IntLeTotalPreorder()
    ensures TotalPreorder(IntLe)
  {
  }

  /** Code-point order on strings is a total preorder, so lists can be sorted by a string key. */
  lemma LexLeTotalPreorder()
    ensures TotalPreorder(Text.LexLe)
  {
    forall a, b ensures Text.LexLe(a, b) || Text.LexLe(b, a) {
      Text.LexLeTotal(a, b);
    }
    forall a, b, c | Text.LexLe(a, b) && Text.LexLe(b, c) ensures Text.LexLe(a, c) {
      Text.LexLeTransitive(a, b, c);
    }
  }

  /** A permutation has the same keys. */
  lemma PermutationKeys<T, K>(a: seq<T>, b: seq<T>, key: T -> K)
    requires multiset(a) == multiset(b)
    ensures Text.Keys(a, key) == Text.Keys(b, key)
  {
    forall k | k in Text.Keys(a, key) ensures k in Text.Keys(b, key) {
      var i :| 0 <= i < |a| && key(a[i]) == k;
      assert a[i] in multiset(b);
    }
    forall k | k in Text.Keys(b, key) ensures k in Text.Keys(a, key) {
      var i :| 0 <= i < |b| && key(b[i]) == k;
      assert b[i] in multiset(a);
    }
  }

  /** In a list whose keys are unique, no element occurs twice. */
  lemma {:induction false} UniqueKeysMultiplicity<T, K>(s: seq<T>, key: T -> K, x: T)
    requires Text.KeysUnique(s, key)
    ensures multiset(s)[x] <= 1
    decreases |s|
  {
    if |s| > 0 {
      var p := s[..|s| - 1];
      assert s == p + [s[|s| - 1]];
      assert Text.KeysUnique(p, key);
      UniqueKeysMultiplicity(p, key, x);
      if s[|s| - 1] == x {
        forall i | 0 <= i < |p| ensures p[i] != x {
          assert key(s[i]) != key(s[|s| - 1]);
        }
        assert x !in multiset(p);
      }
    }
  }

  /** An element found at two positions occurs at least twice. */
  lemma TwoPositions<T>(s: seq<T>, i: nat, j: nat)
    requires i < j < |s|
    ensures s[i] == s[j] ==> multiset(s)[s[i]] >= 2
  {
    assert s == s[..j] + s[j..];
    assert s[i] in s[..j];
    assert s[j] in s[j..];
  }

  /** A permutation of a list with unique keys has unique keys. */
  lemma PermutationKeepsKeysUnique<T, K>(a: seq<T>, b: seq<T>, key: T -> K)
    requires multiset(a) == multiset(b) && Text.KeysUnique(a, key)
    ensures Text.KeysUnique(b, key)
  {
    forall i, j | 0 <= i < j < |b| ensures key(b[i]) != key(b[j]) {
      UniqueKeysMultiplicity(a, key, b[i]);
      TwoPositions(b, i, j);
      assert b[i] != b[j];
      assert b[i] in multiset(a) && b[j] in multiset(a);
      var p :| 0 <= p < |a| && a[p] == b[i];
      var q :| 0 <= q < |a| && a[q] == b[j];
      if p < q {
        assert key(a[p]) != key(a[q]);
      } else {
        assert key(a[q]) != key(a[p]);
      }
    }
  }
}
