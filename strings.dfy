/** The handful of Python string operations the application relies on:
    `str.isspace`, `str.strip()`, `str.split(sep)`, `sep.join(xs)` and `str.lower()`. */
module Strings {

  /** Python's `str.isspace()` on one character: the code points whose bidirectional
      class is WS, B or S, or whose general category is Zs. */
  predicate IsSpace(c: char) {
    ('\t' <= c <= '\r') || ('\U{1C}' <= c <= '\U{1F}') || c == ' ' || c == '\U{85}' || c == '\U{A0}'
    || c == '\U{1680}' || ('\U{2000}' <= c <= '\U{200A}') || c == '\U{2028}' || c == '\U{2029}'
    || c == '\U{202F}' || c == '\U{205F}' || c == '\U{3000}'
  }

  predicate AllSpace(s: string) {
    forall i :: 0 <= i < |s| ==> IsSpace(s[i])
  }

  /** No whitespace at either end (and so, when non-empty, not whitespace-only). */
  predicate Trimmed(s: string) {
    s != [] ==> !IsSpace(s[0]) && !IsSpace(s[|s| - 1])
  }

  /** `s.lstrip()`: `s` without its leading whitespace (`TrimLeftSuffix` shows it is a suffix). */
  function TrimLeft(s: string): (r: string)
    ensures |r| <= |s|
    ensures r != [] ==> !IsSpace(r[0])
    ensures r == [] <==> AllSpace(s)
  {
    if s != [] && IsSpace(s[0]) then
      var r := TrimLeft(s[1..]);
      assert AllSpace(s[1..]) ==> AllSpace(s) by {
        if AllSpace(s[1..]) {
          forall k | 0 < k < |s| ensures IsSpace(s[k]) { assert s[k] == s[1..][k - 1]; }
        }
      }
      r
    else s
  }

  /** `s.rstrip()`: `s` without its trailing whitespace (`TrimRightPrefix` shows it is a prefix). */
  function TrimRight(s: string): (r: string)
    ensures |r| <= |s|
    ensures r != [] ==> !IsSpace(r[|r| - 1]) && r[0] == s[0]
    ensures r == [] <==> AllSpace(s)
  {
    if s != [] && IsSpace(s[|s| - 1]) then
      var r := TrimRight(s[..|s| - 1]);
      assert AllSpace(s[..|s| - 1]) ==> AllSpace(s) by {
        if AllSpace(s[..|s| - 1]) {
          forall k | 0 <= k < |s| - 1 ensures IsSpace(s[k]) { assert s[k] == s[..|s| - 1][k]; }
        }
      }
      r
    else s
  }

  lemma {:induction false} TrimLeftSuffix(s: string)
    ensures var r := TrimLeft(s); r == s[|s| - |r|..] && AllSpace(s[..|s| - |r|])
  {
    if s != [] && IsSpace(s[0]) {
      var t := s[1..];
      TrimLeftSuffix(t);
      var r := TrimLeft(t);
      var n := |s| - |r|;
      assert t[n - 1..] == s[n..];
      forall k | 0 <= k < n ensures IsSpace(s[..n][k]) {
        if k > 0 {
          assert s[..n][k] == t[..n - 1][k - 1];
        }
      }
    }
  }

  lemma {:induction false} TrimRightPrefix(s: string)
    ensures var r := TrimRight(s); r == s[..|r|] && AllSpace(s[|r|..])
  {
    if s != [] && IsSpace(s[|s| - 1]) {
      TrimRightPrefix(s[..|s| - 1]);
      var r := TrimRight(s[..|s| - 1]);
      assert s[..|s| - 1][..|r|] == s[..|r|];
      assert s[|r|..] == s[..|s| - 1][|r|..] + [s[|s| - 1]];
    }
  }

  /** `s.strip()`: `s` with its surrounding whitespace removed. Nothing is left at either end
      that is whitespace, and the result is empty exactly when `s` is whitespace-only;
      `StripSlice` shows that only surrounding whitespace was removed. */
  function Strip(s: string): (r: string)
    ensures Trimmed(r)
    ensures r == [] <==> AllSpace(s)
  {
    var l := TrimLeft(s);
    assert l != [] ==> !AllSpace(l) by {
      if l != [] { assert !IsSpace(l[0]); }
    }
    TrimRight(l)
  }

  /** `Strip(s)` is the slice of `s` that starts after the leading whitespace, and all that
      lies outside the slice is whitespace. */
  lemma StripSlice(s: string)
    ensures var r, i := Strip(s), |s| - |TrimLeft(s)|;
      i + |r| <= |s| && r == s[i..i + |r|] && AllSpace(s[..i]) && AllSpace(s[i + |r|..])
  {
    var l := TrimLeft(s);
    TrimLeftSuffix(s);
    TrimRightOfSuffix(s, |s| - |l|, l);
    assert Strip(s) == TrimRight(l);
  }

  lemma TrimRightOfSuffix(s: string, i: nat, l: string)
    requires i <= |s| && l == s[i..]
    ensures var r := TrimRight(l); i + |r| <= |s| && r == s[i..i + |r|] && AllSpace(s[i + |r|..])
  {
    var r := TrimRight(l);
    TrimRightPrefix(l);
    assert l[..|r|] == s[i..i + |r|];
    assert l[|r|..] == s[i + |r|..];
  }

  /** Every character of `Strip(s)` occurs in `s`. */
  lemma StripChars(s: string)
    ensures forall ch :: ch in Strip(s) ==> ch in s
  {
    var r := Strip(s);
    var i := |s| - |TrimLeft(s)|;
    StripSlice(s);
    forall ch | ch in r ensures ch in s {
      var k :| 0 <= k < |r| && r[k] == ch;
      assert s[i + k] == ch;
    }
  }

  /** Stripping removes a leading whitespace character. */
  lemma StripLeadingSpace(c: char, s: string)
    requires IsSpace(c)
    ensures Strip([c] + s) == Strip(s)
  {
  }

  /** A text with no whitespace at its ends is its own strip. */
  lemma StripTrimmed(s: string)
    requires Trimmed(s)
    ensures Strip(s) == s
  {
  }

  /** `s.split(sep)` for a one-character separator: the pieces between separators,
      empty pieces included, so there is always one piece more than there are separators. */
  function Split(s: string, sep: char): (r: seq<string>)
    ensures |r| >= 1
  {
    if s == [] then [[]]
    else
      var rest := Split(s[1..], sep);
      if s[0] == sep then [[]] + rest
      else [[s[0]] + rest[0]] + rest[1..]
  }

  /** `sep.join(xs)`. */
  function Join(xs: seq<string>, sep: string): string {
    if |xs| == 0 then []
    else if |xs| == 1 then xs[0]
    else xs[0] + sep + Join(xs[1..], sep)
  }

  /** No piece of a split contains the separator. */
  lemma {:induction false} SplitPieces(s: string, sep: char)
    ensures forall k :: 0 <= k < |Split(s, sep)| ==> sep !in Split(s, sep)[k]
  {
    if s != [] {
      SplitPieces(s[1..], sep);
      var rest := Split(s[1..], sep);
      if s[0] != sep {
        assert sep !in [s[0]] + rest[0];
        assert Split(s, sep)[1..] == rest[1..];
      } else {
        assert Split(s, sep)[1..] == rest;
      }
    }
  }

  /** Splitting is the inverse of joining with the separator: no character is lost or added. */
  lemma {:induction false} JoinSplit(s: string, sep: char)
    ensures Join(Split(s, sep), [sep]) == s
  {
    if s != [] {
      JoinSplit(s[1..], sep);
      var rest := Split(s[1..], sep);
      if s[0] == sep {
        assert Split(s, sep)[1..] == rest;
      } else if |rest| == 1 {
        assert rest[0] == s[1..];
      } else {
        var head := [s[0]] + rest[0];
        var r := Split(s, sep);
        assert r[1..] == rest[1..];
        assert Join(rest, [sep]) == rest[0] + [sep] + Join(rest[1..], [sep]);
        assert Join(r, [sep]) == head + [sep] + Join(rest[1..], [sep]);
        assert s == [s[0]] + s[1..];
      }
    }
  }

  /** A text without the separator is a single piece. */
  lemma {:induction false} SplitNoSep(s: string, sep: char)
    requires sep !in s
    ensures Split(s, sep) == [s]
  {
    if s != [] {
      assert sep !in s[1..] by {
        assert forall ch :: ch in s[1..] ==> ch in s;
      }
      SplitNoSep(s[1..], sep);
      assert s == [s[0]] + s[1..];
    }
  }

  /** Splitting around one separator splits both sides independently. */
  lemma {:induction false} SplitConcat(a: string, b: string, sep: char)
    ensures Split(a + [sep] + b, sep) == Split(a, sep) + Split(b, sep)
  {
    var s := a + [sep] + b;
    if a == [] {
      assert s[1..] == b;
    } else {
      assert s[0] == a[0];
      assert s[1..] == a[1..] + [sep] + b;
      SplitConcat(a[1..], b, sep);
    }
  }

  /** Joining pieces that do not contain the separator, then splitting, gives the pieces back. */
  lemma {:induction false} SplitJoin(xs: seq<string>, sep: char)
    requires |xs| >= 1
    requires forall k :: 0 <= k < |xs| ==> sep !in xs[k]
    ensures Split(Join(xs, [sep]), sep) == xs
  {
    if |xs| == 1 {
      SplitNoSep(xs[0], sep);
    } else {
      SplitJoin(xs[1..], sep);
      SplitNoSep(xs[0], sep);
      SplitConcat(xs[0], Join(xs[1..], [sep]), sep);
      assert xs == [xs[0]] + xs[1..];
    }
  }

  predicate IsUpper(c: char) {
    'A' <= c <= 'Z'
  }

  /** Python's `str.lower()` on one character, for the ASCII upper-case letters. */
  function LowerChar(c: char): char {
    if IsUpper(c) then (c as int + 32) as char else c
  }

  /** `s.lower()`: same length, no upper-case letter left, and every other character kept. */
  function Lower(s: string): (r: string)
    ensures |r| == |s|
    ensures forall i :: 0 <= i < |r| ==> !IsUpper(r[i])
    ensures forall i :: 0 <= i < |s| && !IsUpper(s[i]) ==> r[i] == s[i]
  {
    seq(|s|, i requires 0 <= i < |s| => LowerChar(s[i]))
  }

  /** Lowering twice is lowering once. */
  lemma LowerIdempotent(s: string)
    ensures Lower(Lower(s)) == Lower(s)
  {
  }

  /** `w` is made of lower-case ASCII letters only. */
  predicate LowerWord(w: string) {
    forall i :: 0 <= i < |w| ==> 'a' <= w[i] <= 'z'
  }

  /** `s` spells `w` with any of its letters, or none, in upper case. */
  predicate CaseVariant(s: string, w: string) {
    |s| == |w| && forall i :: 0 <= i < |s| ==> s[i] == w[i] || s[i] as int == w[i] as int - 32
  }

  /** Lowering gives a lower-case word exactly for the case variants of that word. */
  lemma LowerToWord(s: string, w: string)
    requires LowerWord(w)
    ensures Lower(s) == w <==> CaseVariant(s, w)
  {
    if CaseVariant(s, w) {
      forall i | 0 <= i < |s| ensures Lower(s)[i] == w[i] {
        assert Lower(s)[i] == LowerChar(s[i]);
      }
    }
    if Lower(s) == w {
      forall i | 0 <= i < |s| ensures s[i] == w[i] || s[i] as int == w[i] as int - 32 {
        assert w[i] == LowerChar(s[i]);
      }
    }
  }
}
