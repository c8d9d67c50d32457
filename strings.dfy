/**
 * The string operations of JavaScript and Python that the source relies on,
 * with the semantics of those languages: `startsWith`, `includes`/`in`,
 * `split` on a one-character separator, `join`, concatenation of many
 * strings, JavaScript's `trim`, the decimal rendering of a number and
 * Python's `str.title`.
 */
module Strings {
  import opened Seqs

  predicate StartsWith(s: string, prefix: string) {
    |prefix| <= |s| && s[..|prefix|] == prefix
  }

  /** `s.includes(sub)` in JavaScript, `sub in s` in Python. */
  predicate Includes(s: string, sub: string) {
    exists i | 0 <= i <= |s| - |sub| :: OccursAt(s, sub, i)
  }

  predicate OccursAt(s: string, sub: string, i: int) {
    0 <= i <= |s| - |sub| && s[i..i + |sub|] == sub
  }

  /** Every string includes itself, so a non-empty-string filter built from a value keeps that value. */
  lemma IncludesSuffix(s: string, t: string)
    requires |t| <= |s| && s[|s| - |t|..] == t
    ensures Includes(s, t)
  {
    assert OccursAt(s, t, |s| - |t|);
  }

  /** `parts.join(sep)` / `sep.join(parts)`. */
  function Join(parts: seq<string>, sep: string): string
    decreases |parts|
  {
    if |parts| == 0 then ""
    else if |parts| == 1 then parts[0]
    else parts[0] + sep + Join(parts[1..], sep)
  }

  /** The in-order concatenation of `parts` (a running `+=` over them). */
  function Concat(parts: seq<string>): string
    decreases |parts|
  {
    if parts == [] then "" else Concat(parts[..|parts| - 1]) + parts[|parts| - 1]
  }

  lemma {:induction false} ConcatAppend(a: seq<string>, b: seq<string>)
    ensures Concat(a + b) == Concat(a) + Concat(b)
    decreases |b|
  {
    if b == [] {
      assert a + b == a;
    } else {
      var front, last := b[..|b| - 1], b[|b| - 1];
      assert (a + b)[..|a + b| - 1] == a + front;
      assert Concat(a + b) == Concat(a + front) + last;
      ConcatAppend(a, front);
      assert Concat(b) == Concat(front) + last;
      AppendAssoc(Concat(a), Concat(front), last);
    }
  }

  lemma ConcatSingle(t: string)
    ensures Concat([t]) == t
  {
    assert [t][..0] == [];
  }

  /**
   * `s.split(sep)` for a one-character separator, in both languages: the pieces
   * between separators, one more than the separators; `""` gives `[""]`.
   */
  function Split(s: string, sep: char): (parts: seq<string>)
    ensures |parts| >= 1
    ensures forall k :: 0 <= k < |parts| ==> sep !in parts[k]
    ensures sep !in s ==> parts == [s]
    decreases |s|
  {
    if s == [] then [""]
    else
      var rest := Split(s[1..], sep);
      if s[0] == sep then [""] + rest
      else
        assert s == [s[0]] + s[1..];
        [[s[0]] + rest[0]] + rest[1..]
  }

  /** Splitting then joining with the same separator gives the string back. */
  lemma {:induction false} SplitJoin(s: string, sep: char)
    ensures Join(Split(s, sep), [sep]) == s
    decreases |s|
  {
    if s != [] {
      SplitJoin(s[1..], sep);
      var rest := Split(s[1..], sep);
      if s[0] == sep {
        assert Split(s, sep) == [""] + rest;
        assert ([""] + rest)[1..] == rest;
      } else {
        var parts := Split(s, sep);
        assert parts == [[s[0]] + rest[0]] + rest[1..];
        if |rest| == 1 {
          assert s == [s[0]] + s[1..];
        } else {
          assert parts[1..] == rest[1..];
          assert Join(rest, [sep]) == rest[0] + [sep] + Join(rest[1..], [sep]);
          assert s == [s[0]] + s[1..];
        }
      }
    }
  }

  /** A separator-free prefix splits off as the first piece. */
  lemma {:induction false} SplitAfterPiece(a: string, b: string, sep: char)
    requires sep !in a
    ensures Split(a + [sep] + b, sep) == [a] + Split(b, sep)
    decreases |a|
  {
    if a == [] {
      assert a + [sep] + b == [sep] + b;
      assert ([sep] + b)[1..] == b;
    } else {
      var s := a + [sep] + b;
      assert s[0] == a[0] && s[1..] == a[1..] + [sep] + b;
      SplitAfterPiece(a[1..], b, sep);
      assert [a[0]] + a[1..] == a;
    }
  }

  /**
   * The last piece of `s.split(sep)`: the longest separator-free suffix of `s`.
   * It is all of `s` when `s` has no separator and `""` when `s` ends with one.
   */
  function LastPiece(s: string, sep: char): (r: string)
    ensures |r| <= |s| && s[|s| - |r|..] == r
    ensures sep !in r
    ensures |r| == |s| || s[|s| - |r| - 1] == sep
  {
    var parts := Split(s, sep);
    LastPieceIsSuffix(s, sep);
    parts[|parts| - 1]
  }

  lemma {:induction false} LastPieceIsSuffix(s: string, sep: char)
    ensures var parts := Split(s, sep); var r := parts[|parts| - 1];
      |r| <= |s| && s[|s| - |r|..] == r && (|r| == |s| || s[|s| - |r| - 1] == sep)
    decreases |s|
  {
    if s != [] {
      LastPieceIsSuffix(s[1..], sep);
      var rest := Split(s[1..], sep);
      var parts := Split(s, sep);
      if s[0] == sep {
        assert parts == [""] + rest;
      } else if |rest| == 1 {
        // no separator after s[0], so the only piece is all of s
        SplitJoin(s[1..], sep);
        assert s[1..] == rest[0];
        assert parts == [s];
      } else {
        assert parts[|parts| - 1] == rest[|rest| - 1];
      }
    }
  }

  lemma LastPieceWithoutSeparator(s: string, sep: char)
    requires sep !in s
    ensures LastPiece(s, sep) == s
  {
  }

  lemma LastPieceAfterTrailingSeparator(s: string, sep: char)
    requires s != [] && s[|s| - 1] == sep
    ensures LastPiece(s, sep) == ""
  {
  }

  /** ECMAScript WhiteSpace and LineTerminator code points: what `trim` removes. */
  predicate IsJsSpace(c: char) {
    c == '\t' || c == '\n' || c == '\U{000B}' || c == '\U{000C}' || c == '\r' || c == ' '
    || c == '\U{00A0}' || c == '\U{1680}' || ('\U{2000}' <= c <= '\U{200A}')
    || c == '\U{2028}' || c == '\U{2029}' || c == '\U{202F}' || c == '\U{205F}'
    || c == '\U{3000}' || c == '\U{FEFF}'
  }

  predicate AllSpace(s: string) {
    forall k :: 0 <= k < |s| ==> IsJsSpace(s[k])
  }

  /** The first index from `i` on that does not hold white space, or `|s|`. */
  function SpaceEnd(s: string, i: nat): (n: nat)
    requires i <= |s|
    ensures i <= n <= |s|
    ensures forall k :: i <= k < n ==> IsJsSpace(s[k])
    ensures n == |s| || !IsJsSpace(s[n])
    decreases |s| - i
  {
    if i < |s| && IsJsSpace(s[i]) then SpaceEnd(s, i + 1) else i
  }

  /** The least index down from `j`, and not below `lo`, such that `s[n..j]` is white space. */
  function SpaceStart(s: string, lo: nat, j: nat): (n: nat)
    requires lo <= j <= |s|
    ensures lo <= n <= j
    ensures forall k :: n <= k < j ==> IsJsSpace(s[k])
    ensures n == lo || !IsJsSpace(s[n - 1])
    decreases j
  {
    if lo < j && IsJsSpace(s[j - 1]) then SpaceStart(s, lo, j - 1) else j
  }

  /**
   * `s.trim()`: the infix left after removing white space from both ends.
   * It is empty exactly when `s` is all white space.
   */
  function Trim(s: string): (r: string)
    ensures var i := SpaceEnd(s, 0);
      i + |r| <= |s| && r == s[i..i + |r|] && AllSpace(s[..i]) && AllSpace(s[i + |r|..])
    ensures r == [] || (!IsJsSpace(r[0]) && !IsJsSpace(r[|r| - 1]))
    ensures r == [] <==> AllSpace(s)
  {
    var i := SpaceEnd(s, 0);
    var j := SpaceStart(s, i, |s|);
    TrimBounds(s, i, j);
    s[i..j]
  }

  /** White space before `i` and from `j` on, none at either end of `s[i..j]`. */
  lemma TrimBounds(s: string, i: nat, j: nat)
    requires i <= j <= |s|
    requires forall k :: 0 <= k < i ==> IsJsSpace(s[k])
    requires i == |s| || !IsJsSpace(s[i])
    requires forall k :: j <= k < |s| ==> IsJsSpace(s[k])
    requires j == i || !IsJsSpace(s[j - 1])
    ensures AllSpace(s[..i]) && AllSpace(s[j..])
    ensures s[i..j] == [] || (!IsJsSpace(s[i..j][0]) && !IsJsSpace(s[i..j][j - i - 1]))
    ensures s[i..j] == [] <==> AllSpace(s)
  {
    assert forall k :: 0 <= k < i ==> s[..i][k] == s[k];
    assert forall k :: 0 <= k < |s| - j ==> s[j..][k] == s[j + k];
    if i == j {
      assert i == |s|;
    } else {
      assert !AllSpace(s) by {
        assert !IsJsSpace(s[i]);
      }
    }
  }

  /** Trimming twice is trimming once. */
  lemma TrimIdempotent(s: string)
    ensures Trim(Trim(s)) == Trim(s)
  {
    var r := Trim(s);
    assert SpaceEnd(r, 0) == 0;
    assert SpaceStart(r, 0, |r|) == |r|;
    assert r[0..|r|] == r;
  }

  function DigitChar(d: nat): (c: char)
    requires d < 10
    ensures '0' <= c <= '9' && c as int - '0' as int == d
  {
    ('0' as int + d) as char
  }

  predicate IsDigit(c: char) { '0' <= c <= '9' }

  /** The numeric value of a string of decimal digits. */
  function DecimalValue(s: string): nat
    requires forall k :: 0 <= k < |s| ==> IsDigit(s[k])
    decreases |s|
  {
    if s == [] then 0
    else
      assert IsDigit(s[|s| - 1]);
      10 * DecimalValue(s[..|s| - 1]) + ((s[|s| - 1] as int) - ('0' as int))
  }

  /** The shortest decimal rendering of `n`, as `String(n)` and Python's `str(n)` give it. */
  function NatToString(n: nat): (r: string)
    ensures r != [] && forall k :: 0 <= k < |r| ==> IsDigit(r[k])
    ensures r == "0" || r[0] != '0'
    decreases n
  {
    if n < 10 then [DigitChar(n)] else NatToString(n / 10) + [DigitChar(n % 10)]
  }

  /** Reading back the rendering gives the number. */
  lemma {:induction false} NatToStringValue(n: nat)
    ensures DecimalValue(NatToString(n)) == n
    decreases n
  {
    if n >= 10 {
      NatToStringValue(n / 10);
      var r := NatToString(n);
      assert r[..|r| - 1] == NatToString(n / 10);
    }
  }

  /** A canonical decimal string (no leading zero) is the rendering of its value. */
  lemma {:induction false} CanonicalDecimal(s: string)
    requires s != [] && forall k :: 0 <= k < |s| ==> IsDigit(s[k])
    requires s == "0" || s[0] != '0'
    ensures NatToString(DecimalValue(s)) == s
    decreases |s|
  {
    var n := DecimalValue(s);
    var d := (s[|s| - 1] as int) - ('0' as int);
    var p := s[..|s| - 1];
    assert n == 10 * DecimalValue(p) + d;
    if |s| == 1 {
      assert p == [];
      assert DigitChar(d) == s[0];
    } else {
      assert p[0] == s[0];
      CanonicalDecimal(p);
      PositiveValue(p);
      DivMod10(DecimalValue(p), d);
      assert NatToString(n) == NatToString(DecimalValue(p)) + [DigitChar(d)];
      assert DigitChar(d) == s[|s| - 1];
      assert s == p + [s[|s| - 1]];
    }
  }

  lemma DivMod10(q: nat, d: nat)
    requires d < 10
    ensures (10 * q + d) / 10 == q && (10 * q + d) % 10 == d
  {
  }

  lemma {:induction false} PositiveValue(s: string)
    requires s != [] && forall k :: 0 <= k < |s| ==> IsDigit(s[k])
    requires s[0] != '0'
    ensures DecimalValue(s) > 0
    decreases |s|
  {
    if |s| > 1 {
      var p := s[..|s| - 1];
      assert p[0] == s[0];
      PositiveValue(p);
    }
  }

  predicate IsAsciiUpper(c: char) { 'A' <= c <= 'Z' }
  predicate IsAsciiLower(c: char) { 'a' <= c <= 'z' }

  function ToUpper(c: char): char requires IsAsciiLower(c) { ((c as int) - 32) as char }
  function ToLower(c: char): char requires IsAsciiUpper(c) { ((c as int) + 32) as char }

  /**
   * Python's `str.title` over ASCII: a letter is upper-cased when the character
   * before it is not a letter and lower-cased when it is.
   */
  function Title(s: string): (r: string)
    ensures |r| == |s|
  {
    TitleAfter(s, false)
  }

  function TitleAfter(s: string, previousCased: bool): (r: string)
    ensures |r| == |s|
    ensures forall k :: 0 <= k < |s| ==> (IsAsciiUpper(s[k]) || IsAsciiLower(s[k]) <==> IsAsciiUpper(r[k]) || IsAsciiLower(r[k]))
    decreases |s|
  {
    if s == [] then []
    else
      var c := s[0];
      var rest := TitleAfter(s[1..], IsAsciiUpper(c) || IsAsciiLower(c));
      if IsAsciiUpper(c) then [if previousCased then ToLower(c) else c] + rest
      else if IsAsciiLower(c) then [if previousCased then c else ToUpper(c)] + rest
      else [c] + rest
  }

  /** Title-casing is idempotent. */
  lemma {:induction false} TitleAfterIdempotent(s: string, previousCased: bool)
    ensures TitleAfter(TitleAfter(s, previousCased), previousCased) == TitleAfter(s, previousCased)
    decreases |s|
  {
    if s != [] {
      var r := TitleAfter(s, previousCased);
      var cased := IsAsciiUpper(s[0]) || IsAsciiLower(s[0]);
      assert r[1..] == TitleAfter(s[1..], cased);
      TitleAfterIdempotent(s[1..], cased);
      assert IsAsciiUpper(r[0]) || IsAsciiLower(r[0]) <==> cased;
    }
  }

  lemma TitleIdempotent(s: string)
    ensures Title(Title(s)) == Title(s)
  {
    TitleAfterIdempotent(s, false);
  }

  /** After a letter, lower-case letters stay as they are. */
  lemma {:induction false} TitleAfterLetterKeepsLower(s: string)
    requires forall k :: 0 <= k < |s| ==> IsAsciiLower(s[k])
    ensures TitleAfter(s, true) == s
    decreases |s|
  {
    if s != [] {
      TitleAfterLetterKeepsLower(s[1..]);
    }
  }

  /** A lower-case word is title-cased by upper-casing its first letter. */
  lemma TitleOfLowerWord(s: string)
    requires s != [] && forall k :: 0 <= k < |s| ==> IsAsciiLower(s[k])
    ensures Title(s) == [ToUpper(s[0])] + s[1..]
  {
    assert s == [s[0]] + s[1..];
    TitleAfterLetterKeepsLower(s[1..]);
  }

  /** The role the backend stores for the user's turns reads back as `User`. */
  lemma TitleOfUser()
    ensures Title("user") == "User"
  {
    var w := "ser";
    assert "user" == ['u'] + w && "User" == ['U'] + w;
    assert forall k :: 0 <= k < |w| ==> IsAsciiLower(w[k]);
    TitleAfterLetterKeepsLower(w);
  }

  /** The role the backend stores for the answers reads back as `Assistant`. */
  lemma TitleOfAssistant()
    ensures Title("assistant") == "Assistant"
  {
    var w := "ssistant";
    assert "assistant" == ['a'] + w && "Assistant" == ['A'] + w;
    assert forall k :: 0 <= k < |w| ==> IsAsciiLower(w[k]);
    TitleAfterLetterKeepsLower(w);
  }
}
