/**
 * String helpers the store and the tool layer rely on: the byte-wise order
 * SQL uses to compare text columns, ASCII lower-casing, Go's `strings.TrimSpace`
 * and the case folding of `strings.EqualFold` against an ASCII word.
 */
module Strings {

  /** `a` sorts strictly before `b` in code-point order (SQL text comparison). */
  predicate Less(a: string, b: string)
    decreases |a|
  {
    if a == [] then b != []
    else if b == [] then false
    else if a[0] != b[0] then a[0] < b[0]
    else Less(a[1..], b[1..])
  }

  lemma {:induction false} LessIrreflexive(a: string)
    ensures !Less(a, a)
    decreases |a|
  {
    if a != [] {
      LessIrreflexive(a[1..]);
    }
  }

  lemma {:induction false} LessTransitive(a: string, b: string, c: string)
    requires Less(a, b) && Less(b, c)
    ensures Less(a, c)
    decreases |a|
  {
    if a != [] && b != [] && c != [] && a[0] == b[0] && b[0] == c[0] {
      LessTransitive(a[1..], b[1..], c[1..]);
    }
  }

  lemma {:induction false} LessTotal(a: string, b: string)
    ensures a == b || Less(a, b) || Less(b, a)
    decreases |a|
  {
    if a != [] && b != [] && a[0] == b[0] {
      LessTotal(a[1..], b[1..]);
      if a[1..] == b[1..] {
        assert a == [a[0]] + a[1..] && b == [b[0]] + b[1..];
      }
    }
  }

  lemma {:induction false} LessAsymmetric(a: string, b: string)
    requires Less(a, b)
    ensures !Less(b, a) && a != b
  {
    if Less(b, a) {
      LessTransitive(a, b, a);
      LessIrreflexive(a);
    }
    if a == b {
      LessIrreflexive(a);
    }
  }

  /** `a <= b` in the same order. */
  predicate LessOrEqual(a: string, b: string) {
    a == b || Less(a, b)
  }

  /** `p` is a prefix of `t`. */
  predicate IsPrefix(p: string, t: string) {
    |p| <= |t| && t[..|p|] == p
  }

  /** `s` occurs in `t` at some position. */
  predicate Contains(t: string, s: string)
    decreases |t|
  {
    IsPrefix(s, t) || (t != [] && Contains(t[1..], s))
  }

  function LowerChar(c: char): (d: char)
    ensures 'A' <= c <= 'Z' ==> d as int == c as int + 32
    ensures !('A' <= c <= 'Z') ==> d == c
  {
    if 'A' <= c <= 'Z' then (c as int + 32) as char else c
  }

  /** `strings.ToLower` restricted to ASCII letters: other characters are kept. */
  function ToLower(s: string): (r: string)
    ensures |r| == |s|
    ensures forall i :: 0 <= i < |s| ==> r[i] == LowerChar(s[i])
  {
    if s == [] then [] else [LowerChar(s[0])] + ToLower(s[1..])
  }

  lemma ToLowerAppend(a: string, b: string)
    ensures ToLower(a + b) == ToLower(a) + ToLower(b)
  {
    var l, r := ToLower(a + b), ToLower(a) + ToLower(b);
    forall i | 0 <= i < |l|
      ensures l[i] == r[i]
    {
      if i < |a| {
        assert (a + b)[i] == a[i];
      } else {
        assert (a + b)[i] == b[i - |a|];
      }
    }
  }

  /** Unicode White_Space, the set Go's `unicode.IsSpace` tests. */
  predicate IsSpace(c: char) {
    c == ' ' || ('\t' <= c <= '\r')
    || c == '\U{0085}' || c == '\U{00A0}' || c == '\U{1680}'
    || ('\U{2000}' <= c <= '\U{200A}')
    || c == '\U{2028}' || c == '\U{2029}' || c == '\U{202F}' || c == '\U{205F}' || c == '\U{3000}'
  }

  function TrimLeft(s: string): (r: string)
    ensures |r| <= |s| && r == s[|s| - |r|..]
    ensures r == [] || !IsSpace(r[0])
    ensures forall i :: 0 <= i < |s| - |r| ==> IsSpace(s[i])
  {
    if s != [] && IsSpace(s[0]) then TrimLeft(s[1..]) else s
  }

  function TrimRight(s: string): (r: string)
    ensures |r| <= |s| && r == s[..|r|]
    ensures r == [] || !IsSpace(r[|r| - 1])
    ensures forall i :: |r| <= i < |s| ==> IsSpace(s[i])
  {
    if s != [] && IsSpace(s[|s| - 1]) then TrimRight(s[..|s| - 1]) else s
  }

  /**
   * `strings.TrimSpace`: the result is a slice of `s` that neither starts nor
   * ends with white space, and everything cut off is white space.
   */
  function TrimSpace(s: string): (r: string)
    ensures r == [] || (!IsSpace(r[0]) && !IsSpace(r[|r| - 1]))
  {
    TrimRight(TrimLeft(s))
  }

  /** True when `s` is nothing but white space (so `TrimSpace(s) == ""`). */
  predicate IsBlank(s: string) {
    forall i :: 0 <= i < |s| ==> IsSpace(s[i])
  }

  lemma {:induction false} TrimSpaceBlank(s: string)
    ensures TrimSpace(s) == "" <==> IsBlank(s)
  {
    var l := TrimLeft(s);
    if !IsBlank(s) {
      var k :| 0 <= k < |s| && !IsSpace(s[k]);
      assert |s| - |l| <= k;
      assert l[k - (|s| - |l|)] == s[k];
    }
  }

  /**
   * Simple case folding between a character and an ASCII character, as
   * `strings.EqualFold` does it: ASCII letters match their other case, and
   * the two non-ASCII characters that fold onto ASCII letters join their
   * orbit: U+017F (long s) with 's', U+212A (Kelvin sign) with 'k'.
   */
  predicate FoldsTo(c: char, a: char) {
    LowerChar(c) == LowerChar(a)
    || (c == '\U{017F}' && LowerChar(a) == 's')
    || (c == 'K' && LowerChar(a) == 'k')
  }

  /** `strings.EqualFold(s, word)` for an ASCII `word`. */
  predicate EqualFoldAscii(s: string, word: string) {
    |s| == |word| && forall i :: 0 <= i < |s| ==> FoldsTo(s[i], word[i])
  }
}
