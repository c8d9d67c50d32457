/**
 * Sequence operations the source gets from its languages' libraries:
 * `Array.prototype.filter`, `new Set(xs)` spread back into an array, counting,
 * and the stable `Array.prototype.sort` with a numeric comparator.
 */
module Seqs {

  lemma AppendAssoc<T>(x: seq<T>, y: seq<T>, z: seq<T>)
    ensures (x + y) + z == x + (y + z)
  {
  }

  /** The elements of `s` that satisfy `p`, in their original order. */
  function Filter<T>(s: seq<T>, p: T -> bool): (r: seq<T>)
    ensures |r| <= |s|
    ensures forall k :: 0 <= k < |r| ==> p(r[k])
    decreases |s|
  {
    if s == [] then [] else (if p(s[0]) then [s[0]] else []) + Filter(s[1..], p)
  }

  /** `a` is obtained from `b` by deleting elements, keeping the order of the rest. */
  ghost predicate IsSubsequence<T>(a: seq<T>, b: seq<T>)
    decreases |b|
  {
    if b == [] then a == []
    else (a != [] && a[0] == b[0] && IsSubsequence(a[1..], b[1..])) || IsSubsequence(a, b[1..])
  }

  lemma {:induction false} SubsequenceLength<T>(a: seq<T>, b: seq<T>)
    requires IsSubsequence(a, b)
    ensures |a| <= |b|
    ensures forall x :: x in a ==> x in b
    decreases |b|
  {
    if b != [] {
      if a != [] && a[0] == b[0] && IsSubsequence(a[1..], b[1..]) {
        SubsequenceLength(a[1..], b[1..]);
        assert forall x :: x in a ==> x == a[0] || x in a[1..];
      } else {
        SubsequenceLength(a, b[1..]);
      }
    }
  }

  /** `filter` keeps exactly the elements satisfying the predicate, in order. */
  lemma {:induction false} FilterSpec<T>(s: seq<T>, p: T -> bool)
    ensures IsSubsequence(Filter(s, p), s)
    ensures forall x :: x in Filter(s, p) <==> x in s && p(x)
    decreases |s|
  {
    if s != [] {
      FilterSpec(s[1..], p);
      var rest := Filter(s[1..], p);
      if p(s[0]) {
        assert Filter(s, p) == [s[0]] + rest;
        assert Filter(s, p)[1..] == rest;
      } else {
        assert Filter(s, p) == rest;
      }
      assert forall x :: x in s <==> x == s[0] || x in s[1..];
    }
  }

  lemma {:induction false} FilterAppend<T>(a: seq<T>, b: seq<T>, p: T -> bool)
    ensures Filter(a + b, p) == Filter(a, p) + Filter(b, p)
    decreases |a|
  {
    if a != [] {
      var head := if p(a[0]) then [a[0]] else [];
      assert (a + b)[1..] == a[1..] + b;
      assert Filter(a + b, p) == head + Filter(a[1..] + b, p);
      FilterAppend(a[1..], b, p);
      AppendAssoc(head, Filter(a[1..], p), Filter(b, p));
    } else {
      assert a + b == b;
    }
  }

  /** A filter every element passes keeps the whole sequence. */
  lemma {:induction false} FilterKeepsAll<T>(s: seq<T>, p: T -> bool)
    requires forall k :: 0 <= k < |s| ==> p(s[k])
    ensures Filter(s, p) == s
    decreases |s|
  {
    if s != [] {
      FilterKeepsAll(s[1..], p);
      assert s == [s[0]] + s[1..];
    }
  }

  /** A filter no element passes keeps nothing. */
  lemma {:induction false} FilterKeepsNone<T>(s: seq<T>, p: T -> bool)
    requires forall k :: 0 <= k < |s| ==> !p(s[k])
    ensures Filter(s, p) == []
    decreases |s|
  {
    if s != [] {
      FilterKeepsNone(s[1..], p);
    }
  }

  /** A filter and its complement together hold every element of `s` once. */
  lemma {:induction false} FilterComplement<T>(s: seq<T>, p: T -> bool, q: T -> bool)
    requires forall x :: q(x) == !p(x)
    ensures multiset(Filter(s, p)) + multiset(Filter(s, q)) == multiset(s)
    decreases |s|
  {
    if s != [] {
      FilterComplement(s[1..], p, q);
      assert s == [s[0]] + s[1..];
      if p(s[0]) {
        assert Filter(s, q) == Filter(s[1..], q);
        assert Filter(s, p) == [s[0]] + Filter(s[1..], p);
      } else {
        assert Filter(s, p) == Filter(s[1..], p);
        assert Filter(s, q) == [s[0]] + Filter(s[1..], q);
      }
    }
  }

  /** The number of times `x` occurs in `s`. */
  function Count<T(==)>(s: seq<T>, x: T): (n: nat)
    ensures n <= |s|
    ensures n > 0 <==> x in s
    decreases |s|
  {
    if s == [] then 0 else (if s[0] == x then 1 else 0) + Count(s[1..], x)
  }

  lemma {:induction false} CountAppend<T>(a: seq<T>, b: seq<T>, x: T)
    ensures Count(a + b, x) == Count(a, x) + Count(b, x)
    decreases |a|
  {
    if a != [] {
      assert (a + b)[1..] == a[1..] + b;
      assert Count(a + b, x) == (if a[0] == x then 1 else 0) + Count(a[1..] + b, x);
      CountAppend(a[1..], b, x);
    } else {
      assert a + b == b;
    }
  }

  predicate NoDuplicates<T(==)>(s: seq<T>) {
    forall i, j :: 0 <= i < j < |s| ==> s[i] != s[j]
  }

  /** Without duplicates every element occurs once. */
  lemma {:induction false} NoDuplicatesOnce<T>(s: seq<T>)
    requires NoDuplicates(s)
    ensures forall x :: multiset(s)[x] == (if x in s then 1 else 0)
    decreases |s|
  {
    if s != [] {
      NoDuplicatesOnce(s[1..]);
      assert s == [s[0]] + s[1..];
      assert s[0] !in s[1..];
    }
  }

  /**
   * The distinct elements of `s` in order of first occurrence: what
   * `[...new Set(s)]` and the key order of a dictionary built from `s` give.
   */
  function Distinct<T(==,!new)>(s: seq<T>): (r: seq<T>)
    ensures NoDuplicates(r)
    ensures forall x :: x in r <==> x in s
    decreases |s|
  {
    if s == [] then []
    else
      var d := Distinct(s[..|s| - 1]);
      assert forall x :: x in s <==> x in s[..|s| - 1] || x == s[|s| - 1];
      if s[|s| - 1] in d then d else d + [s[|s| - 1]]
  }

  /** Keys never decrease along `s`. */
  predicate SortedBy<T>(s: seq<T>, key: T -> int) {
    forall i, j :: 0 <= i < j < |s| ==> key(s[i]) <= key(s[j])
  }

  /** Inserts `x` before the first element whose key is not smaller, so it precedes its equals. */
  function InsertBy<T>(x: T, s: seq<T>, key: T -> int): (r: seq<T>)
    ensures multiset(r) == multiset(s) + multiset{x}
    ensures |r| == |s| + 1
    decreases |s|
  {
    if s == [] || key(x) <= key(s[0]) then [x] + s
    else
      var rest := InsertBy(x, s[1..], key);
      assert s == [s[0]] + s[1..];
      [s[0]] + rest
  }

  /**
   * A stable sort by an integer key, ascending: the order `Array.prototype.sort`
   * produces with the comparator `(a, b) => key(a) - key(b)`.
   */
  function SortBy<T>(s: seq<T>, key: T -> int): (r: seq<T>)
    ensures multiset(r) == multiset(s)
    ensures |r| == |s|
    decreases |s|
  {
    if s == [] then []
    else
      assert s == [s[0]] + s[1..];
      InsertBy(s[0], SortBy(s[1..], key), key)
  }

  /** A lower bound on the keys of `x` and of `s` bounds every key after the insertion. */
  lemma {:induction false} InsertByBound<T>(x: T, s: seq<T>, key: T -> int, b: int)
    requires b <= key(x)
    requires forall k :: 0 <= k < |s| ==> b <= key(s[k])
    ensures forall k :: 0 <= k < |InsertBy(x, s, key)| ==> b <= key(InsertBy(x, s, key)[k])
    decreases |s|
  {
    if s != [] && key(x) > key(s[0]) {
      var rest := InsertBy(x, s[1..], key);
      InsertByBound(x, s[1..], key, b);
      var r := InsertBy(x, s, key);
      assert r == [s[0]] + rest;
      forall k | 0 <= k < |r| ensures b <= key(r[k]) {
        if k > 0 {
          assert r[k] == rest[k - 1];
        }
      }
    }
  }

  lemma {:induction false} InsertBySorted<T>(x: T, s: seq<T>, key: T -> int)
    requires SortedBy(s, key)
    ensures SortedBy(InsertBy(x, s, key), key)
    decreases |s|
  {
    var r := InsertBy(x, s, key);
    if s == [] {
    } else if key(x) <= key(s[0]) {
      assert r == [x] + s;
      forall i, j | 0 <= i < j < |r| ensures key(r[i]) <= key(r[j]) {
        assert r[j] == s[j - 1];
        if i > 0 {
          assert r[i] == s[i - 1];
        } else {
          assert key(s[0]) <= key(s[j - 1]);
        }
      }
    } else {
      var tail := s[1..];
      var rest := InsertBy(x, tail, key);
      assert SortedBy(tail, key) by {
        forall i, j | 0 <= i < j < |tail| ensures key(tail[i]) <= key(tail[j]) {
          assert tail[i] == s[i + 1] && tail[j] == s[j + 1];
        }
      }
      InsertBySorted(x, tail, key);
      assert forall k :: 0 <= k < |tail| ==> key(s[0]) <= key(tail[k]) by {
        forall k | 0 <= k < |tail| ensures key(s[0]) <= key(tail[k]) {
          assert tail[k] == s[k + 1];
        }
      }
      InsertByBound(x, tail, key, key(s[0]));
      assert r == [s[0]] + rest;
      forall i, j | 0 <= i < j < |r| ensures key(r[i]) <= key(r[j]) {
        assert r[j] == rest[j - 1];
        if i > 0 {
          assert r[i] == rest[i - 1];
        }
      }
    }
  }

  /** The sorted result is ordered by key and is a permutation of the input. */
  lemma {:induction false} SortBySpec<T>(s: seq<T>, key: T -> int)
    ensures SortedBy(SortBy(s, key), key)
    ensures multiset(SortBy(s, key)) == multiset(s)
    decreases |s|
  {
    if s != [] {
      SortBySpec(s[1..], key);
      InsertBySorted(s[0], SortBy(s[1..], key), key);
    }
  }

  /** The elements of `s` whose key is `v`, in order: one tie class of a sort by `key`. */
  function WithKey<T>(s: seq<T>, key: T -> int, v: int): (r: seq<T>)
    ensures |r| <= |s|
    decreases |s|
  {
    if s == [] then [] else (if key(s[0]) == v then [s[0]] else []) + WithKey(s[1..], key, v)
  }

  lemma {:induction false} InsertByStable<T>(x: T, s: seq<T>, key: T -> int, v: int)
    requires SortedBy(s, key)
    ensures WithKey(InsertBy(x, s, key), key, v)
         == (if key(x) == v then [x] else []) + WithKey(s, key, v)
    decreases |s|
  {
    if s == [] || key(x) <= key(s[0]) {
      assert ([x] + s)[1..] == s;
    } else {
      InsertByStable(x, s[1..], key, v);
      var rest := InsertBy(x, s[1..], key);
      var r := InsertBy(x, s, key);
      var head := if key(s[0]) == v then [s[0]] else [];
      var hx := if key(x) == v then [x] else [];
      assert r == [s[0]] + rest && r[0] == s[0] && r[1..] == rest;
      assert WithKey(r, key, v) == head + WithKey(rest, key, v);
      assert WithKey(s, key, v) == head + WithKey(s[1..], key, v);
      // x's slot comes after s[0], whose key is below key(x): the two tie classes differ
      assert head == [] || hx == [];
      assert head + (hx + WithKey(s[1..], key, v)) == hx + (head + WithKey(s[1..], key, v));
    }
  }

  /** Stability: each tie class keeps its original relative order. */
  lemma {:induction false} SortByStable<T>(s: seq<T>, key: T -> int, v: int)
    ensures WithKey(SortBy(s, key), key, v) == WithKey(s, key, v)
    decreases |s|
  {
    if s != [] {
      SortByStable(s[1..], key, v);
      SortBySpec(s[1..], key);
      InsertByStable(s[0], SortBy(s[1..], key), key, v);
    }
  }

  /** Elements kept by the complement of `p` fail `p`. */
  lemma ComplementFails<T(!new)>(s: seq<T>, p: T -> bool, q: T -> bool)
    requires forall x :: q(x) == !p(x)
    ensures forall k :: 0 <= k < |Filter(s, q)| ==> !p(Filter(s, q)[k])
  {
    var rest := Filter(s, q);
    forall k | 0 <= k < |rest| ensures !p(rest[k]) {
      assert q(rest[k]);
    }
  }

  /** The elements passing `p`, sorted, followed by the others: every element passing `p` is sorted into the front. */
  lemma SortedFrontFirst<T(!new)>(s: seq<T>, p: T -> bool, q: T -> bool, key: T -> int)
    requires forall x :: q(x) == !p(x)
    ensures var r := SortBy(Filter(s, p), key) + Filter(s, q);
      forall i, j :: 0 <= i < j < |r| && p(r[j]) ==> p(r[i]) && key(r[i]) <= key(r[j])
  {
    var front, rest := SortBy(Filter(s, p), key), Filter(s, q);
    var r := front + rest;
    ComplementFails(s, p, q);
    assert forall j :: |front| <= j < |r| ==> !p(r[j]);
    SortBySpec(Filter(s, p), key);
    SortedFrontPasses(s, p, key);
    forall i, j | 0 <= i < j < |r| && p(r[j])
      ensures p(r[i]) && key(r[i]) <= key(r[j])
    {
      assert r[i] == front[i] && r[j] == front[j];
    }
  }

  lemma SortedFrontPasses<T>(s: seq<T>, p: T -> bool, key: T -> int)
    ensures forall k :: 0 <= k < |SortBy(Filter(s, p), key)| ==> p(SortBy(Filter(s, p), key)[k])
  {
    var front := SortBy(Filter(s, p), key);
    forall k | 0 <= k < |front| ensures p(front[k]) {
      assert front[k] in multiset(Filter(s, p));
    }
  }

  /** Filtering the sorted front followed by the others by the complement gives the others back. */
  lemma SortedFrontRest<T(!new)>(s: seq<T>, p: T -> bool, q: T -> bool, key: T -> int)
    requires forall x :: q(x) == !p(x)
    ensures Filter(SortBy(Filter(s, p), key) + Filter(s, q), q) == Filter(s, q)
  {
    var front, rest := SortBy(Filter(s, p), key), Filter(s, q);
    SortedFrontPasses(s, p, key);
    assert forall k :: 0 <= k < |front| ==> !q(front[k]);
    FilterAppend(front, rest, q);
    FilterKeepsNone(front, q);
    FilterKeepsAll(rest, q);
  }
}
