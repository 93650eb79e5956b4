/**
 * The collection operations of the Kotlin standard library the app relies on:
 * `filter`, `sortedByDescending` (a stable sort) and `distinctBy`.
 */
module Lists {

  /** `a` is `b` with some elements dropped and the rest in their order. */
  predicate Subsequence<T(==)>(a: seq<T>, b: seq<T>)
    decreases |b|
  {
    if a == [] then true
    else if b == [] then false
    else if a[0] == b[0] then Subsequence(a[1..], b[1..])
    else Subsequence(a, b[1..])
  }

  /** `s.filter(p)` */
  function Filter<T>(s: seq<T>, p: T -> bool): (r: seq<T>)
    ensures |r| <= |s|
    ensures forall i :: 0 <= i < |r| ==> r[i] in s && p(r[i])
    ensures forall i :: 0 <= i < |s| && p(s[i]) ==> s[i] in r
  {
    if s == [] then []
    else if p(s[0]) then [s[0]] + Filter(s[1..], p)
    else Filter(s[1..], p)
  }

  lemma {:induction false} FilterIsSubsequence<T>(s: seq<T>, p: T -> bool)
    ensures Subsequence(Filter(s, p), s)
  {
    if s != [] {
      FilterIsSubsequence(s[1..], p);
      if !p(s[0]) {
        SubsequenceOfTail(Filter(s[1..], p), s);
      }
    }
  }

  /** A subsequence of the tail is a subsequence of the whole. */
  lemma {:induction false} SubsequenceOfTail<T>(a: seq<T>, b: seq<T>)
    requires b != [] && Subsequence(a, b[1..])
    ensures Subsequence(a, b)
    decreases |b|, 0
  {
    if a != [] && a[0] == b[0] {
      SubsequenceDropHead(a, b[1..]);
    }
  }

  /** Dropping the first element keeps a subsequence. */
  lemma {:induction false} SubsequenceDropHead<T>(a: seq<T>, b: seq<T>)
    requires a != [] && Subsequence(a, b)
    ensures Subsequence(a[1..], b)
    decreases |b|, 1
  {
    if a[1..] != [] {
      if a[0] == b[0] {
        SubsequenceOfTail(a[1..], b);
      } else {
        SubsequenceDropHead(a, b[1..]);
        SubsequenceOfTail(a[1..], b);
      }
    }
  }

  /** Filtering twice by the same test is filtering once. */
  lemma {:induction false} FilterIdempotent<T>(s: seq<T>, p: T -> bool)
    ensures Filter(Filter(s, p), p) == Filter(s, p)
  {
    if s != [] {
      FilterIdempotent(s[1..], p);
    }
  }

  /** A filter that keeps every element is the identity. */
  lemma {:induction false} FilterKeepsAll<T>(s: seq<T>, p: T -> bool)
    requires forall x :: x in s ==> p(x)
    ensures Filter(s, p) == s
  {
    if s != [] {
      FilterKeepsAll(s[1..], p);
    }
  }

  /** The lists one after another. */
  function Concat<T>(ss: seq<seq<T>>): seq<T>
    decreases |ss|
  {
    if ss == [] then [] else Concat(ss[..|ss| - 1]) + ss[|ss| - 1]
  }

  /** An element is in the concatenation exactly when one of the lists holds it. */
  lemma {:induction false} ConcatMembers<T>(ss: seq<seq<T>>, x: T)
    ensures x in Concat(ss) <==> exists i :: 0 <= i < |ss| && x in ss[i]
    decreases |ss|
  {
    if ss != [] {
      var front := ss[..|ss| - 1];
      ConcatMembers(front, x);
      assert forall i :: 0 <= i < |front| ==> front[i] == ss[i];
    }
  }

  // ---------------------------------------------------------------------
  // Stable sort, newest first: `sortedByDescending { key(it) }`.

  /** `less` is a strict total order on keys. */
  ghost predicate StrictTotalOrder<K(!new)>(less: (K, K) -> bool) {
    && (forall a :: !less(a, a))
    && (forall a, b, c :: less(a, b) && less(b, c) ==> less(a, c))
    && (forall a, b :: a != b ==> less(a, b) || less(b, a))
  }

  /** No element has a smaller key than an element after it. */
  ghost predicate NonIncreasing<T, K>(s: seq<T>, key: T -> K, less: (K, K) -> bool) {
    forall i, j :: 0 <= i < j < |s| ==> !less(key(s[i]), key(s[j]))
  }

  /** The elements of `s` whose key is `k`, in order. */
  ghost function WithKey<T, K>(s: seq<T>, key: T -> K, k: K): seq<T> {
    if s == [] then []
    else if key(s[0]) == k then [s[0]] + WithKey(s[1..], key, k)
    else WithKey(s[1..], key, k)
  }

  /** Places `x` before the first element whose key is not greater than its own. */
  function Insert<T, K>(x: T, s: seq<T>, key: T -> K, less: (K, K) -> bool): (r: seq<T>)
    ensures multiset(r) == multiset(s) + multiset{x}
  {
    if s == [] || !less(key(x), key(s[0])) then [x] + s
    else
      assert s == [s[0]] + s[1..];
      [s[0]] + Insert(x, s[1..], key, less)
  }

  /** `s.sortedByDescending(key)`, stable as the Kotlin library promises. */
  function SortDesc<T, K>(s: seq<T>, key: T -> K, less: (K, K) -> bool): (r: seq<T>)
    ensures multiset(r) == multiset(s)
  {
    if s == [] then []
    else
      assert s == [s[0]] + s[1..];
      Insert(s[0], SortDesc(s[1..], key, less), key, less)
  }

  lemma {:induction false} InsertNonIncreasing<T, K(!new)>(x: T, s: seq<T>, key: T -> K, less: (K, K) -> bool)
    requires StrictTotalOrder(less)
    requires NonIncreasing(s, key, less)
    ensures NonIncreasing(Insert(x, s, key, less), key, less)
  {
    var r := Insert(x, s, key, less);
    if s == [] || !less(key(x), key(s[0])) {
      forall i, j | 0 <= i < j < |r| ensures !less(key(r[i]), key(r[j])) {
        if i == 0 && j > 1 {
          // key(s[j-1]) <= key(s[0]) <= key(x)
          assert !less(key(s[0]), key(s[j - 1]));
        }
      }
    } else {
      var t := Insert(x, s[1..], key, less);
      InsertNonIncreasing(x, s[1..], key, less);
      assert r == [s[0]] + t;
      forall j | 0 <= j < |t| ensures !less(key(s[0]), key(t[j])) {
        assert t[j] in multiset(t);
        if t[j] != x {
          assert t[j] in multiset(s[1..]);
          var m :| 0 <= m < |s[1..]| && s[1..][m] == t[j];
          assert s[m + 1] == t[j];
        }
      }
    }
  }

  lemma {:induction false} SortDescNonIncreasing<T, K(!new)>(s: seq<T>, key: T -> K, less: (K, K) -> bool)
    requires StrictTotalOrder(less)
    ensures NonIncreasing(SortDesc(s, key, less), key, less)
  {
    if s != [] {
      SortDescNonIncreasing(s[1..], key, less);
      InsertNonIncreasing(s[0], SortDesc(s[1..], key, less), key, less);
    }
  }

  lemma {:induction false} InsertWithKey<T, K(!new)>(x: T, s: seq<T>, key: T -> K, less: (K, K) -> bool, k: K)
    requires forall a :: !less(a, a)
    ensures WithKey(Insert(x, s, key, less), key, k) ==
            (if key(x) == k then [x] else []) + WithKey(s, key, k)
  {
    if s != [] && less(key(x), key(s[0])) {
      InsertWithKey(x, s[1..], key, less, k);
      assert Insert(x, s, key, less)[1..] == Insert(x, s[1..], key, less);
      assert key(s[0]) != key(x);
    }
  }

  /** Stability: among equal keys the input order is kept. */
  lemma {:induction false} SortDescStable<T, K(!new)>(s: seq<T>, key: T -> K, less: (K, K) -> bool, k: K)
    requires forall a :: !less(a, a)
    ensures WithKey(SortDesc(s, key, less), key, k) == WithKey(s, key, k)
  {
    if s != [] {
      SortDescStable(s[1..], key, less, k);
      InsertWithKey(s[0], SortDesc(s[1..], key, less), key, less, k);
    }
  }

  lemma {:induction false} WithKeyConcat<T, K>(a: seq<T>, b: seq<T>, key: T -> K, k: K)
    ensures WithKey(a + b, key, k) == WithKey(a, key, k) + WithKey(b, key, k)
  {
    if a != [] {
      assert (a + b)[0] == a[0];
      assert (a + b)[1..] == a[1..] + b;
      WithKeyConcat(a[1..], b, key, k);
    } else {
      assert a + b == b;
    }
  }

  // ---------------------------------------------------------------------
  // `distinctBy { key(it) }`: the first element of each key, in order.

  /** Position `i` of `s` holds the first element of its key, a key not in `seen`. */
  ghost predicate FirstOfKey<T, K>(s: seq<T>, key: T -> K, seen: set<K>, i: int)
    requires 0 <= i < |s|
  {
    key(s[i]) !in seen && forall j :: 0 <= j < i ==> key(s[j]) != key(s[i])
  }

  /** Walks `s` keeping each element whose key has not been seen yet. */
  function DistinctFrom<T, K(==)>(s: seq<T>, key: T -> K, seen: set<K>): (r: seq<T>)
    ensures forall i :: 0 <= i < |r| ==> key(r[i]) !in seen
    ensures forall i, j :: 0 <= i < j < |r| ==> key(r[i]) != key(r[j])
  {
    if s == [] then []
    else if key(s[0]) in seen then DistinctFrom(s[1..], key, seen)
    else [s[0]] + DistinctFrom(s[1..], key, seen + {key(s[0])})
  }

  function DistinctBy<T, K(==)>(s: seq<T>, key: T -> K): (r: seq<T>)
    ensures forall i, j :: 0 <= i < j < |r| ==> key(r[i]) != key(r[j])
  {
    DistinctFrom(s, key, {})
  }

  /** Every first occurrence is kept, and only first occurrences are kept. */
  lemma {:induction false} DistinctFromKeepsFirst<T, K>(s: seq<T>, key: T -> K, seen: set<K>)
    ensures forall i :: 0 <= i < |s| && FirstOfKey(s, key, seen, i) ==> s[i] in DistinctFrom(s, key, seen)
    ensures forall y :: y in DistinctFrom(s, key, seen) ==>
              exists i :: 0 <= i < |s| && s[i] == y && FirstOfKey(s, key, seen, i)
  {
    if s != [] {
      var r := DistinctFrom(s, key, seen);
      var seen' := if key(s[0]) in seen then seen else seen + {key(s[0])};
      var t := s[1..];
      DistinctFromKeepsFirst(t, key, seen');
      assert r == if key(s[0]) in seen then DistinctFrom(t, key, seen') else [s[0]] + DistinctFrom(t, key, seen');
      forall i | 0 <= i < |s| && FirstOfKey(s, key, seen, i) ensures s[i] in r {
        if i > 0 {
          assert s[i] == t[i - 1];
          assert FirstOfKey(t, key, seen', i - 1) by {
            forall j | 0 <= j < i - 1 ensures key(t[j]) != key(t[i - 1]) {
              assert t[j] == s[j + 1];
            }
          }
        }
      }
      forall y | y in r ensures exists i :: 0 <= i < |s| && s[i] == y && FirstOfKey(s, key, seen, i) {
        if key(s[0]) !in seen && y == s[0] {
          assert FirstOfKey(s, key, seen, 0);
        } else {
          assert y in DistinctFrom(t, key, seen');
          var m :| 0 <= m < |t| && t[m] == y && FirstOfKey(t, key, seen', m);
          assert s[m + 1] == y;
          assert FirstOfKey(s, key, seen, m + 1) by {
            forall j | 0 <= j < m + 1 ensures key(s[j]) != key(s[m + 1]) {
              if j > 0 { assert s[j] == t[j - 1]; }
            }
          }
        }
      }
    }
  }

  /** Every key of `s` outside `seen` keeps a representative. */
  lemma {:induction false} DistinctFromCovers<T, K>(s: seq<T>, key: T -> K, seen: set<K>)
    ensures forall x :: x in s && key(x) !in seen ==>
              exists y :: y in DistinctFrom(s, key, seen) && key(y) == key(x)
  {
    if s != [] {
      var t := s[1..];
      var seen' := if key(s[0]) in seen then seen else seen + {key(s[0])};
      DistinctFromCovers(t, key, seen');
      var r := DistinctFrom(s, key, seen);
      assert r == if key(s[0]) in seen then DistinctFrom(t, key, seen') else [s[0]] + DistinctFrom(t, key, seen');
      forall x | x in s && key(x) !in seen ensures exists y :: y in r && key(y) == key(x) {
        if key(x) == key(s[0]) {
          assert s[0] in r;
        } else {
          assert x in t by { assert s == [s[0]] + t; }
        }
      }
    }
  }

  /** With pairwise distinct keys, no element occurs twice. */
  lemma {:induction false} DistinctKeysOnce<T, K>(s: seq<T>, key: T -> K, x: T)
    requires forall i, j :: 0 <= i < j < |s| ==> key(s[i]) != key(s[j])
    ensures multiset(s)[x] <= 1
  {
    if s != [] {
      var t := s[1..];
      assert s == [s[0]] + t;
      DistinctKeysOnce(t, key, x);
      if x == s[0] {
        forall j | 0 <= j < |t| ensures t[j] != x {
          assert t[j] == s[j + 1];
        }
        assert x !in multiset(t);
      }
    }
  }

  /** A reordering keeps keys pairwise distinct. */
  lemma PermutationKeepsDistinctKeys<T, K>(a: seq<T>, b: seq<T>, key: T -> K)
    requires multiset(a) == multiset(b)
    requires forall i, j :: 0 <= i < j < |a| ==> key(a[i]) != key(a[j])
    ensures forall i, j :: 0 <= i < j < |b| ==> key(b[i]) != key(b[j])
  {
    forall i, j | 0 <= i < j < |b| ensures key(b[i]) != key(b[j]) {
      if b[i] == b[j] {
        assert b == b[..i] + [b[i]] + b[i + 1..];
        assert b[j] in multiset(b[i + 1..]) by { assert b[j] == b[i + 1..][j - i - 1]; }
        assert multiset(b)[b[i]] >= 2;
        DistinctKeysOnce(a, key, b[i]);
      } else {
        assert b[i] in multiset(a) && b[j] in multiset(a);
        var p :| 0 <= p < |a| && a[p] == b[i];
        var q :| 0 <= q < |a| && a[q] == b[j];
        assert p != q;
      }
    }
  }

  lemma {:induction false} DistinctFromIsSubsequence<T, K>(s: seq<T>, key: T -> K, seen: set<K>)
    ensures Subsequence(DistinctFrom(s, key, seen), s)
  {
    if s != [] {
      var seen' := if key(s[0]) in seen then seen else seen + {key(s[0])};
      DistinctFromIsSubsequence(s[1..], key, seen');
      if key(s[0]) in seen {
        SubsequenceOfTail(DistinctFrom(s, key, seen), s);
      }
    }
  }

  // ---------------------------------------------------------------------
  // The two key orders the app sorts by.

  predicate IntLess(a: int, b: int) {
    a < b
  }

  /** `String.compareTo(...) < 0`: lexicographic, a proper prefix first. */
  predicate StringLess(a: string, b: string) {
    if a == [] then b != []
    else if b == [] then false
    else if a[0] != b[0] then a[0] < b[0]
    else StringLess(a[1..], b[1..])
  }

  lemma IntLessIsStrictTotalOrder()
    ensures StrictTotalOrder(IntLess)
  {
  }

  lemma {:induction false} StringLessIrreflexive(a: string)
    ensures !StringLess(a, a)
  {
    if a != [] {
      StringLessIrreflexive(a[1..]);
    }
  }

  lemma {:induction false} StringLessTransitive(a: string, b: string, c: string)
    requires StringLess(a, b) && StringLess(b, c)
    ensures StringLess(a, c)
  {
    if a != [] && b != [] && c != [] && a[0] == b[0] && b[0] == c[0] {
      StringLessTransitive(a[1..], b[1..], c[1..]);
    }
  }

  lemma {:induction false} StringLessTotal(a: string, b: string)
    requires a != b
    ensures StringLess(a, b) || StringLess(b, a)
  {
    if a != [] && b != [] && a[0] == b[0] {
      assert a == [a[0]] + a[1..] && b == [b[0]] + b[1..];
      StringLessTotal(a[1..], b[1..]);
    }
  }

  lemma StringLessIsStrictTotalOrder()
    ensures StrictTotalOrder(StringLess)
  {
    forall a ensures !StringLess(a, a) {
      StringLessIrreflexive(a);
    }
    forall a, b, c | StringLess(a, b) && StringLess(b, c) ensures StringLess(a, c) {
      StringLessTransitive(a, b, c);
    }
    forall a, b | a != b ensures StringLess(a, b) || StringLess(b, a) {
      StringLessTotal(a, b);
    }
  }
}
