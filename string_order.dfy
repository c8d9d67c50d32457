/**
 * JavaScript's default `Array.prototype.sort()` on strings: elements are
 * compared by their UTF-16 code units, lexicographically.
 */
module StringOrder {

  /** The UTF-16 code units of one character (a surrogate pair above U+FFFF). */
  function Utf16(c: char): (units: seq<int>)
    ensures 1 <= |units| <= 2
  {
    var v := c as int;
    if v < 0x1_0000 then [v]
    else [0xD800 + (v - 0x1_0000) / 0x400, 0xDC00 + (v - 0x1_0000) % 0x400]
  }

  /** The UTF-16 code units of a string. */
  function CodeUnits(s: string): seq<int>
    decreases |s|
  {
    if s == [] then [] else Utf16(s[0]) + CodeUnits(s[1..])
  }

  lemma CodeUnitsHead(s: string)
    requires s != []
    ensures CodeUnits(s) != [] && CodeUnits(s)[0] == Utf16(s[0])[0]
  {
  }

  /** Lexicographic order on code-unit sequences: a prefix comes first. */
  predicate LexLe(a: seq<int>, b: seq<int>)
    decreases |a|
  {
    a == [] || (b != [] && (a[0] < b[0] || (a[0] == b[0] && LexLe(a[1..], b[1..]))))
  }

  lemma {:induction false} LexLeTotal(a: seq<int>, b: seq<int>)
    ensures LexLe(a, b) || LexLe(b, a)
    decreases |a|
  {
    if a != [] && b != [] && a[0] == b[0] {
      LexLeTotal(a[1..], b[1..]);
    }
  }

  lemma {:induction false} LexLeTransitive(a: seq<int>, b: seq<int>, c: seq<int>)
    requires LexLe(a, b) && LexLe(b, c)
    ensures LexLe(a, c)
    decreases |a|
  {
    if a != [] && a[0] == b[0] && b[0] == c[0] {
      LexLeTransitive(a[1..], b[1..], c[1..]);
    }
  }

  /** `a` sorts no later than `b` under the default comparison. */
  predicate StrLe(a: string, b: string) {
    LexLe(CodeUnits(a), CodeUnits(b))
  }

  predicate Sorted(s: seq<string>) {
    forall i, j :: 0 <= i < j < |s| ==> StrLe(s[i], s[j])
  }

  function Insert(x: string, s: seq<string>): (r: seq<string>)
    ensures multiset(r) == multiset(s) + multiset{x}
    ensures |r| == |s| + 1
    decreases |s|
  {
    if s == [] || StrLe(x, s[0]) then [x] + s
    else
      assert s == [s[0]] + s[1..];
      [s[0]] + Insert(x, s[1..])
  }

  /** `s.sort()` over strings: an insertion sort by code-unit order. */
  function Sort(s: seq<string>): (r: seq<string>)
    ensures multiset(r) == multiset(s)
    ensures |r| == |s|
    decreases |s|
  {
    if s == [] then []
    else
      assert s == [s[0]] + s[1..];
      Insert(s[0], Sort(s[1..]))
  }

  /** Two strings out of order are swapped. */
  lemma SortPairOutOfOrder(a: string, b: string)
    requires !StrLe(a, b)
    ensures Sort([a, b]) == [b, a]
  {
    assert [a, b][1..] == [b];
    assert [b][1..] == [];
    assert Sort([b]) == [b];
    assert Insert(a, [b]) == [b] + Insert(a, []);
  }

  /** A lower bound on `x` and on the elements of `s` bounds every element after the insertion. */
  lemma {:induction false} InsertBound(x: string, s: seq<string>, b: string)
    requires StrLe(b, x)
    requires forall k :: 0 <= k < |s| ==> StrLe(b, s[k])
    ensures forall k :: 0 <= k < |Insert(x, s)| ==> StrLe(b, Insert(x, s)[k])
    decreases |s|
  {
    if s != [] && !StrLe(x, s[0]) {
      var rest := Insert(x, s[1..]);
      InsertBound(x, s[1..], b);
      var r := Insert(x, s);
      assert r == [s[0]] + rest;
      forall k | 0 <= k < |r| ensures StrLe(b, r[k]) {
        if k > 0 {
          assert r[k] == rest[k - 1];
        }
      }
    }
  }

  lemma {:induction false} InsertSorted(x: string, s: seq<string>)
    requires Sorted(s)
    ensures Sorted(Insert(x, s))
    decreases |s|
  {
    if s != [] && StrLe(x, s[0]) {
      InsertSortedFront(x, s);
    } else if s != [] {
      LexLeTotal(CodeUnits(x), CodeUnits(s[0]));
      var tail := s[1..];
      assert Sorted(tail) by {
        forall i, j | 0 <= i < j < |tail| ensures StrLe(tail[i], tail[j]) {
          assert tail[i] == s[i + 1] && tail[j] == s[j + 1];
        }
      }
      InsertSorted(x, tail);
      assert forall k :: 0 <= k < |tail| ==> StrLe(s[0], tail[k]) by {
        forall k | 0 <= k < |tail| ensures StrLe(s[0], tail[k]) {
          assert tail[k] == s[k + 1];
        }
      }
      InsertBound(x, tail, s[0]);
      SortedCons(s[0], Insert(x, tail));
    }
  }

  lemma InsertSortedFront(x: string, s: seq<string>)
    requires Sorted(s) && s != [] && StrLe(x, s[0])
    ensures Sorted(Insert(x, s))
  {
    var r := Insert(x, s);
    assert r == [x] + s;
    forall i, j | 0 <= i < j < |r| ensures StrLe(r[i], r[j]) {
      assert r[j] == s[j - 1];
      if i > 0 {
        assert r[i] == s[i - 1];
      } else if j > 1 {
        LexLeTransitive(CodeUnits(x), CodeUnits(s[0]), CodeUnits(s[j - 1]));
      }
    }
  }

  /** A sorted sequence stays sorted with a lower bound of all its elements in front. */
  lemma SortedCons(b: string, s: seq<string>)
    requires Sorted(s)
    requires forall k :: 0 <= k < |s| ==> StrLe(b, s[k])
    ensures Sorted([b] + s)
  {
    var r := [b] + s;
    forall i, j | 0 <= i < j < |r| ensures StrLe(r[i], r[j]) {
      assert r[j] == s[j - 1];
      if i > 0 {
        assert r[i] == s[i - 1];
      }
    }
  }

  /** The result is a sorted permutation of the input. */
  lemma {:induction false} SortSpec(s: seq<string>)
    ensures Sorted(Sort(s))
    ensures multiset(Sort(s)) == multiset(s)
    decreases |s|
  {
    if s != [] {
      SortSpec(s[1..]);
      InsertSorted(s[0], Sort(s[1..]));
    }
  }
}
