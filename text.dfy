/** String helpers shared by the modules: ordering, ASCII case folding, substring search and
    first-occurrence de-duplication. Strings are sequences of Unicode scalar values. */
module Text {

  /** Lexicographic order on code points: the order of Ruby's `String#<=>` on UTF-8 strings. */
  predicate LexLe(a: string, b: string)
    decreases |a|
  {
    |a| == 0 || (|b| > 0 && (a[0] < b[0] || (a[0] == b[0] && LexLe(a[1..], b[1..]))))
  }

  lemma {:induction false} LexLeTotal(a: string, b: string)
    ensures LexLe(a, b) || LexLe(b, a)
    decreases |a|
  {
    if |a| > 0 && |b| > 0 && a[0] == b[0] {
      LexLeTotal(a[1..], b[1..]);
    }
  }

  lemma {:induction false} LexLeTransitive(a: string, b: string, c: string)
    requires LexLe(a, b) && LexLe(b, c)
    ensures LexLe(a, c)
    decreases |a|
  {
    if |a| > 0 && a[0] == b[0] && b[0] == c[0] {
      LexLeTransitive(a[1..], b[1..], c[1..]);
    }
  }

  /** ASCII lower-casing of one character. */
  function AsciiLower(c: char): (d: char)
    ensures 'A' <= c <= 'Z' ==> 'a' <= d <= 'z' && d as int - c as int == 32
    ensures !('A' <= c <= 'Z') ==> d == c
  {
    if 'A' <= c <= 'Z' then (c as int + 32) as char else c
  }

  /** `String#downcase`, restricted to the ASCII letters. */
  function Downcase(s: string): (r: string)
    ensures |r| == |s|
    ensures forall i :: 0 <= i < |s| ==> r[i] == AsciiLower(s[i])
  {
    seq(|s|, i requires 0 <= i < |s| => AsciiLower(s[i]))
  }

  /** `sub` occurs in `s` as a contiguous run: exact, case-sensitive containment. */
  predicate Contains(s: string, sub: string) {
    exists i :: 0 <= i <= |s| - |sub| && OccursAt(s, sub, i)
  }

  /** `sub` occurs in `s` starting at position `i`. */
  predicate OccursAt(s: string, sub: string, i: int)
    requires 0 <= i <= |s| - |sub|
  {
    s[i..i + |sub|] == sub
  }

  /** Keeps the first element for each key, in their original order (Ruby `uniq`,
      a reduce into an object keyed by id). */
  function DedupBy<T, K(==)>(s: seq<T>, key: T -> K): (r: seq<T>)
    decreases |s|
  {
    if |s| == 0 then []
    else
      var d := DedupBy(s[..|s| - 1], key);
      if key(s[|s| - 1]) in Keys(d, key) then d else d + [s[|s| - 1]]
  }

  /** The keys of the elements of `s`. */
  function Keys<T, K>(s: seq<T>, key: T -> K): (ks: set<K>)
    ensures forall i :: 0 <= i < |s| ==> key(s[i]) in ks
    ensures forall k :: k in ks ==> exists i :: 0 <= i < |s| && key(s[i]) == k
  {
    set i | 0 <= i < |s| :: key(s[i])
  }

  /** No element occurs twice. */
  predicate Distinct<T(==)>(s: seq<T>) {
    forall i, j :: 0 <= i < j < |s| ==> s[i] != s[j]
  }

  /** Elements whose integer key strictly increases along the sequence are distinct. */
  lemma IncreasingKeyDistinct<T>(s: seq<T>, key: T -> int)
    requires forall i :: 0 < i < |s| ==> key(s[i - 1]) < key(s[i])
    ensures Distinct(s)
  {
    forall i, j | 0 <= i < j < |s| ensures s[i] != s[j] {
      IncreasingKeyChain(s, key, i, j);
    }
  }

  lemma {:induction false} IncreasingKeyChain<T>(s: seq<T>, key: T -> int, i: nat, j: nat)
    requires forall i :: 0 < i < |s| ==> key(s[i - 1]) < key(s[i])
    requires i < j < |s|
    ensures key(s[i]) < key(s[j])
    decreases j - i
  {
    if i + 1 < j {
      IncreasingKeyChain(s, key, i, j - 1);
    }
  }

  /** Two sequences without repeats and without common elements concatenate without repeats. */
  lemma DistinctConcat<T>(a: seq<T>, b: seq<T>)
    requires Distinct(a) && Distinct(b)
    requires forall i, j :: 0 <= i < |a| && 0 <= j < |b| ==> a[i] != b[j]
    ensures Distinct(a + b)
  {
    forall i, j | 0 <= i < j < |a + b| ensures (a + b)[i] != (a + b)[j] {
      if j < |a| {
        assert (a + b)[i] == a[i] && (a + b)[j] == a[j];
      } else if i < |a| {
        assert (a + b)[i] == a[i] && (a + b)[j] == b[j - |a|];
      } else {
        assert (a + b)[i] == b[i - |a|] && (a + b)[j] == b[j - |a|];
      }
    }
  }

  /** No two elements share a key. */
  predicate KeysUnique<T, K(==)>(s: seq<T>, key: T -> K) {
    forall i, j :: 0 <= i < j < |s| ==> key(s[i]) != key(s[j])
  }

  lemma {:induction false} KeysOfSnoc<T, K>(s: seq<T>, key: T -> K)
    requires |s| > 0
    ensures Keys(s, key) == Keys(s[..|s| - 1], key) + {key(s[|s| - 1])}
  {
    var p := s[..|s| - 1];
    forall k | k in Keys(s, key) ensures k in Keys(p, key) + {key(s[|s| - 1])} {
      var i :| 0 <= i < |s| && key(s[i]) == k;
      if i < |s| - 1 { assert p[i] == s[i]; }
    }
    forall k | k in Keys(p, key) ensures k in Keys(s, key) {
      var i :| 0 <= i < |p| && key(p[i]) == k;
      assert s[i] == p[i];
    }
  }

  /** `DedupBy` keeps one element per key and loses no key. */
  lemma {:induction false} DedupByKeys<T, K>(s: seq<T>, key: T -> K)
    ensures KeysUnique(DedupBy(s, key), key)
    ensures Keys(DedupBy(s, key), key) == Keys(s, key)
    decreases |s|
  {
    if |s| > 0 {
      var p := s[..|s| - 1];
      DedupByKeys(p, key);
      KeysOfSnoc(s, key);
      var d := DedupBy(p, key);
      if key(s[|s| - 1]) !in Keys(d, key) {
        KeysOfSnoc(d + [s[|s| - 1]], key);
        assert (d + [s[|s| - 1]])[..|d|] == d;
      }
    }
  }

  /** Element `x` occurs in `s` and no element before it has its key. */
  ghost predicate FirstWithKey<T, K>(s: seq<T>, key: T -> K, x: T) {
    exists i :: 0 <= i < |s| && s[i] == x && forall j :: 0 <= j < i ==> key(s[j]) != key(x)
  }

  lemma FirstWithKeyInPrefix<T, K>(s: seq<T>, key: T -> K, x: T)
    requires |s| > 0 && FirstWithKey(s[..|s| - 1], key, x)
    ensures FirstWithKey(s, key, x)
  {
    var p := s[..|s| - 1];
    var i :| 0 <= i < |p| && p[i] == x && forall j :: 0 <= j < i ==> key(p[j]) != key(x);
    assert s[i] == x;
    forall j | 0 <= j < i ensures key(s[j]) != key(x) { assert s[j] == p[j]; }
  }

  /** Each element `DedupBy` keeps is the FIRST element of `s` with its key. */
  lemma {:induction false} DedupByKeepsFirst<T, K>(s: seq<T>, key: T -> K)
    ensures forall x :: x in DedupBy(s, key) ==> FirstWithKey(s, key, x)
    decreases |s|
  {
    if |s| > 0 {
      var p := s[..|s| - 1];
      var last := s[|s| - 1];
      DedupByKeepsFirst(p, key);
      var d := DedupBy(p, key);
      forall x | x in DedupBy(s, key) ensures FirstWithKey(s, key, x) {
        if x in d {
          FirstWithKeyInPrefix(s, key, x);
        } else {
          assert x == last && key(last) !in Keys(d, key);
          DedupByKeys(p, key);
          forall j | 0 <= j < |s| - 1 ensures key(s[j]) != key(x) {
            assert s[j] == p[j];
          }
          assert s[|s| - 1] == x;
        }
      }
    }
  }

  /** When `s` is not empty, `DedupBy` keeps its first element at the front. */
  lemma {:induction false} DedupByKeepsHead<T, K>(s: seq<T>, key: T -> K)
    requires |s| > 0
    ensures |DedupBy(s, key)| > 0 && DedupBy(s, key)[0] == s[0]
    decreases |s|
  {
    if |s| > 1 {
      DedupByKeepsHead(s[..|s| - 1], key);
      assert s[..|s| - 1][0] == s[0];
    }
  }
}
