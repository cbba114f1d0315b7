/** String primitives shared by the model: substring search, the lowercasing
    that `String.prototype.toLowerCase` performs as far as ASCII text can
    observe it, the whitespace set of `String.prototype.trim`, and
    `slice(0, n)`. */
module Text {
  import opened Wrappers

  /** `pat` occurs in `s` starting at index `i`. */
  predicate OccursAt(s: string, pat: string, i: nat) {
    i + |pat| <= |s| && s[i..i + |pat|] == pat
  }

  /** `s.includes(pat)` in JavaScript, `pat in s` in Python. The empty pattern
      is contained in every string. */
  predicate Contains(s: string, pat: string) {
    exists i :: 0 <= i <= |s| && OccursAt(s, pat, i)
  }

  /** Index of the first occurrence of `pat` in `s` at or after `from`. */
  function IndexFrom(s: string, pat: string, from: nat): (r: Option<nat>)
    ensures r.Some? ==> from <= r.value && OccursAt(s, pat, r.value)
    ensures r.Some? ==> forall j :: from <= j < r.value ==> !OccursAt(s, pat, j)
    ensures r.None? ==> forall j :: from <= j ==> !OccursAt(s, pat, j)
    decreases |s| - from
  {
    if from + |pat| > |s| then None
    else if s[from..from + |pat|] == pat then Some(from)
    else IndexFrom(s, pat, from + 1)
  }

  /** Index of the first occurrence of `pat` in `s` (`s.indexOf(pat)`). */
  function IndexOf(s: string, pat: string): (r: Option<nat>)
    ensures r.Some? <==> Contains(s, pat)
    ensures r.Some? ==> OccursAt(s, pat, r.value)
    ensures r.Some? ==> forall j :: 0 <= j < r.value ==> !OccursAt(s, pat, j)
  {
    IndexFrom(s, pat, 0)
  }

  // ---------------------------------------------------------------------
  // Lowercasing.

  /** The lowercase form of `c` as `toLowerCase` produces it, exact whenever
      the result is compared against ASCII text: ASCII capitals map to their
      lowercase letter, and U+212A KELVIN SIGN maps to 'k' (the only non-ASCII
      character whose lowercase form is a single ASCII letter). Every other
      character either is unchanged or lowercases to non-ASCII text, which no
      ASCII pattern can match; U+0130 lowercases to "i" followed by U+0307,
      whose "i" could only end an ASCII match, and no pattern matched against
      lowered text in this model ends in 'i'. */
  function LowerChar(c: char): char {
    if 'A' <= c <= 'Z' then (c as int + 32) as char
    else if c == '\U{212A}' then 'k'
    else c
  }

  /** The characters `toLowerCase` leaves as they are in this model. */
  predicate LowerKeeps(c: char) {
    !('A' <= c <= 'Z') && c != '\U{212A}'
  }

  /** `s.toLowerCase()`, see LowerChar. */
  function Lower(s: string): (r: string)
    ensures |r| == |s|
    ensures forall i :: 0 <= i < |s| ==> LowerKeeps(r[i])
    ensures forall i :: 0 <= i < |s| && 'A' <= s[i] <= 'Z' ==> r[i] as int == s[i] as int + 32
    ensures forall i :: 0 <= i < |s| && s[i] == '\U{212A}' ==> r[i] == 'k'
    ensures forall i :: 0 <= i < |s| && LowerKeeps(s[i]) ==> r[i] == s[i]
  {
    seq(|s|, i requires 0 <= i < |s| => LowerChar(s[i]))
  }

  /** `s.toUpperCase()` restricted to ASCII letters; used to state that the
      lowercased comparison ignores case. */
  function UpperAscii(s: string): string {
    seq(|s|, i requires 0 <= i < |s| =>
      if 'a' <= s[i] <= 'z' then (s[i] as int - 32) as char else s[i])
  }

  /** A marker written in lower case is found in the lowered text however the
      original text capitalises it: each of its letters may be written in
      either case, as in "Rate Limit Exceeded". */
  lemma LowerFindsAnyCase(pre: string, w: string, post: string, m: string)
    requires forall i :: 0 <= i < |m| ==> LowerKeeps(m[i]) && m[i] as int < 128
    requires |w| == |m|
    requires forall k :: 0 <= k < |m| ==> w[k] == m[k] || w[k] == UpperAscii(m)[k]
    ensures Contains(Lower(pre + w + post), m)
  {
    var s := pre + w + post;
    var l := Lower(s);
    forall k | 0 <= k < |m|
      ensures l[|pre| + k] == m[k]
    {
      assert s[|pre| + k] == w[k];
    }
    assert l[|pre|..|pre| + |m|] == m;
    assert OccursAt(l, m, |pre|);
  }

  // ---------------------------------------------------------------------
  // Whitespace and slicing.

  /** The characters `String.prototype.trim` and `parseInt` skip: the
      ECMAScript WhiteSpace and LineTerminator code points. */
  predicate IsJsWhitespace(c: char) {
    c == '\t' || c == '\n' || c == '\U{000B}' || c == '\U{000C}' || c == '\r'
    || c == ' ' || c == '\U{00A0}' || c == '\U{1680}'
    || ('\U{2000}' <= c <= '\U{200A}')
    || c == '\U{2028}' || c == '\U{2029}' || c == '\U{202F}' || c == '\U{205F}'
    || c == '\U{3000}' || c == '\U{FEFF}'
  }

  /** `s.trim().length === 0`. */
  predicate IsBlank(s: string) {
    forall i :: 0 <= i < |s| ==> IsJsWhitespace(s[i])
  }

  /** The text `s.trimStart()` returns. */
  function TrimStart(s: string): (r: string)
    ensures |r| <= |s| && r == s[|s| - |r|..]
    ensures |r| > 0 ==> !IsJsWhitespace(r[0])
    ensures IsBlank(s[..|s| - |r|])
  {
    if |s| > 0 && IsJsWhitespace(s[0]) then
      var r := TrimStart(s[1..]);
      assert s[..|s| - |r|] == [s[0]] + s[1..][..|s[1..]| - |r|];
      r
    else s
  }

  /** `s.slice(0, n)` for n >= 0: the first n characters, or all of `s`. */
  function Take(s: string, n: nat): (r: string)
    ensures |r| <= n && r <= s
    ensures |s| <= n ==> r == s
    ensures n <= |s| ==> |r| == n
  {
    if |s| <= n then s else s[..n]
  }
}
