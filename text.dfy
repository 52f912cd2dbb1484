/**
 * The few pieces of Python's `str` and `re` that the validators rely on:
 * the character classes `\d`, `\w`, `\s`, `str.lower()`, `str.strip()` and
 * the substring test `p in s`.
 */
module Text {
  import opened Wrappers

  /** `\d`, restricted to the ASCII digits. */
  predicate IsDigit(c: char) { '0' <= c <= '9' }

  predicate IsUpper(c: char) { 'A' <= c <= 'Z' }

  predicate IsLower(c: char) { 'a' <= c <= 'z' }

  /** `[a-zA-Z]` */
  predicate IsAlpha(c: char) { IsUpper(c) || IsLower(c) }

  /** `\w`, restricted to ASCII: letters, digits and the underscore. */
  predicate IsWord(c: char) { IsAlpha(c) || IsDigit(c) || c == '_' }

  /**
   * Python's whitespace: the characters `str.isspace()` accepts, which are
   * also the ones `\s` matches and the ones `str.strip()` removes.
   */
  predicate IsSpace(c: char) {
    c == ' ' || ('\t' <= c <= '\r') || ('\U{1C}' <= c <= '\U{1F}')
    || c == '\U{85}' || c == '\U{A0}' || c == '\U{1680}'
    || ('\U{2000}' <= c <= '\U{200A}') || c == '\U{2028}' || c == '\U{2029}'
    || c == '\U{202F}' || c == '\U{205F}' || c == '\U{3000}'
  }

  predicate AllDigits(s: string) { forall i :: 0 <= i < |s| ==> IsDigit(s[i]) }

  predicate NoSpace(s: string) { forall i :: 0 <= i < |s| ==> !IsSpace(s[i]) }

  predicate NoUpper(s: string) { forall i :: 0 <= i < |s| ==> !IsUpper(s[i]) }

  /** `str.lower()` on one character, for the ASCII letters. */
  function LowerChar(c: char): (r: char)
    ensures !IsUpper(r)
    ensures IsUpper(c) ==> IsLower(r)
    ensures !IsUpper(c) ==> r == c
  {
    if IsUpper(c) then (c as int + 32) as char else c
  }

  /** `str.lower()` */
  function Lower(s: string): (r: string)
    ensures |r| == |s| && NoUpper(r)
    ensures forall i :: 0 <= i < |s| ==> r[i] == LowerChar(s[i])
  {
    seq(|s|, i requires 0 <= i < |s| => LowerChar(s[i]))
  }

  lemma LowerKeepsLowered(s: string)
    requires NoUpper(s)
    ensures Lower(s) == s
  {
  }

  /** Number of whitespace characters at the front of `s`. */
  function LeadingSpaces(s: string): (n: nat)
    ensures n <= |s|
    ensures forall k :: 0 <= k < n ==> IsSpace(s[k])
    ensures n < |s| ==> !IsSpace(s[n])
  {
    if |s| > 0 && IsSpace(s[0]) then 1 + LeadingSpaces(s[1..]) else 0
  }

  /** Number of whitespace characters at the back of `s`. */
  function TrailingSpaces(s: string): (n: nat)
    ensures n <= |s|
    ensures forall k :: |s| - n <= k < |s| ==> IsSpace(s[k])
    ensures n < |s| ==> !IsSpace(s[|s| - 1 - n])
  {
    if |s| > 0 && IsSpace(s[|s| - 1]) then 1 + TrailingSpaces(s[..|s| - 1]) else 0
  }

  /** `str.strip()`: no longer than `s`, with no whitespace left at either end. */
  function Strip(s: string): (r: string)
    ensures |r| <= |s|
    ensures r != [] ==> !IsSpace(r[0]) && !IsSpace(r[|r| - 1])
  {
    var t := s[LeadingSpaces(s)..];
    t[..|t| - TrailingSpaces(t)]
  }

  /** Stripping gives the empty string exactly when `s` is all whitespace. */
  lemma StripEmpty(s: string)
    ensures Strip(s) == [] <==> forall k :: 0 <= k < |s| ==> IsSpace(s[k])
  {
    var i, j := StripSpan(s);
  }

  /**
   * What `str.strip()` keeps: one contiguous slice `s[i..j]` of `s`, with
   * only whitespace cut on either side and none left at its ends.
   */
  lemma StripSpan(s: string) returns (i: nat, j: nat)
    ensures i <= j <= |s| && Strip(s) == s[i..j]
    ensures forall k :: 0 <= k < i ==> IsSpace(s[k])
    ensures forall k :: j <= k < |s| ==> IsSpace(s[k])
    ensures i < j ==> !IsSpace(s[i]) && !IsSpace(s[j - 1])
  {
    i := LeadingSpaces(s);
    var t := s[i..];
    var n := TrailingSpaces(t);
    j := |s| - n;
    TrailOfSuffix(s, i, n);
    assert Strip(s) == t[..|t| - n];
    PrefixOfSuffix(s, i, |t| - n);
  }

  lemma PrefixOfSuffix(s: string, i: nat, m: nat)
    requires i + m <= |s|
    ensures s[i..][..m] == s[i..i + m]
  {
  }

  /** The trailing whitespace of a suffix `s[i..]`, seen in `s` itself. */
  lemma TrailOfSuffix(s: string, i: nat, n: nat)
    requires i <= |s| && n == TrailingSpaces(s[i..])
    ensures forall k :: |s| - n <= k < |s| ==> IsSpace(s[k])
    ensures n < |s| - i ==> !IsSpace(s[|s| - 1 - n])
  {
    var t := s[i..];
    assert forall k :: |s| - n <= k < |s| ==> s[k] == t[k - i];
    assert n < |t| ==> s[|s| - 1 - n] == t[|t| - 1 - n];
  }

  /** Stripping a string that has no whitespace leaves it as it is. */
  lemma StripNoSpace(s: string)
    requires NoSpace(s)
    ensures Strip(s) == s
  {
    var i, j := StripSpan(s);
    assert |s| > 0 ==> !IsSpace(s[0]) && !IsSpace(s[|s| - 1]);
  }

  /** `s.startswith(p)` */
  predicate StartsWith(s: string, p: string) {
    |p| <= |s| && s[..|p|] == p
  }

  /** `p` occurs in `s` starting at index `i`. */
  predicate OccursAt(s: string, p: string, i: int) {
    0 <= i <= |s| - |p| && s[i..i + |p|] == p
  }

  /** Python's `p in s` on strings: `p` occurs in `s` as a substring. */
  predicate Contains(s: string, p: string) {
    exists i | 0 <= i <= |s| - |p| :: OccursAt(s, p, i)
  }

  /** A string without the first character of `p` does not contain `p`. */
  lemma AbsentFirstChar(s: string, p: string)
    requires |p| > 0 && forall k :: 0 <= k < |s| ==> s[k] != p[0]
    ensures !Contains(s, p)
  {
    forall i | 0 <= i <= |s| - |p| ensures !OccursAt(s, p, i) {
      assert s[i..i + |p|][0] == s[i];
    }
  }

  /** A string is its three slices cut at `i` and `j`, put back together. */
  lemma ThreeSlices(s: string, i: nat, j: nat)
    requires i <= j <= |s|
    ensures s == s[..i] + (s[i..j] + s[j..])
  {
    assert s[i..] == s[i..j] + s[j..];
  }

  lemma SliceOfSlice(s: string, i: nat, j: nat, a: nat, b: nat)
    requires i <= j <= |s| && a <= b <= j - i
    ensures s[i..j][a..b] == s[i + a..i + b]
  {
    assert forall k :: 0 <= k < b - a ==> s[i..j][a..b][k] == s[i + a..i + b][k];
  }

  /** An occurrence inside `Strip(s)` is an occurrence inside `s`. */
  lemma ContainsFromStrip(s: string, p: string)
    requires Contains(Strip(s), p)
    ensures Contains(s, p)
  {
    var i, j := StripSpan(s);
    var t := Strip(s);
    var k :| OccursAt(t, p, k);
    assert OccursAt(t, p, k);
    SliceOfSlice(s, i, j, k, k + |p|);
    assert OccursAt(s, p, i + k);
  }

  /**
   * An occurrence inside `s` of a phrase that neither starts nor ends with
   * whitespace survives stripping.
   */
  lemma ContainsToStrip(s: string, p: string)
    requires |p| > 0 && !IsSpace(p[0]) && !IsSpace(p[|p| - 1])
    requires Contains(s, p)
    ensures Contains(Strip(s), p)
  {
    var i, j := StripSpan(s);
    var k :| OccursAt(s, p, k);
    OccursInSpan(s, p, i, j, k);
    assert OccursAt(Strip(s), p, k - i);
  }

  /**
   * An occurrence of a phrase that neither starts nor ends with whitespace
   * lies inside any span of `s` that has only whitespace around it.
   */
  lemma OccursInSpan(s: string, p: string, i: nat, j: nat, k: nat)
    requires i <= j <= |s|
    requires forall x :: 0 <= x < i ==> IsSpace(s[x])
    requires forall x :: j <= x < |s| ==> IsSpace(s[x])
    requires |p| > 0 && !IsSpace(p[0]) && !IsSpace(p[|p| - 1])
    requires OccursAt(s, p, k)
    ensures i <= k && OccursAt(s[i..j], p, k - i)
  {
    assert s[k] == p[0] by { assert s[k..k + |p|][0] == s[k]; }
    assert s[k + |p| - 1] == p[|p| - 1] by { assert s[k..k + |p|][|p| - 1] == s[k + |p| - 1]; }
    assert i <= k;
    assert k + |p| <= j;
    SliceOfSlice(s, i, j, k - i, k - i + |p|);
  }

  /** Stripping text whose only whitespace is one final character drops just that character. */
  lemma StripDropsLast(s: string)
    requires |s| > 1 && IsSpace(s[|s| - 1]) && NoSpace(s[..|s| - 1])
    ensures Strip(s) == s[..|s| - 1]
  {
    var b := s[..|s| - 1];
    var i, j := StripSpan(s);
    assert forall k :: 0 <= k < |b| ==> s[k] == b[k];
    assert !IsSpace(s[0]);
    assert i == 0;
    assert !IsSpace(s[|b| - 1]);
    assert j == |b|;
  }

  /**
   * Stripping does not change whether a phrase occurs when the phrase
   * neither starts nor ends with whitespace.
   */
  lemma ContainsStrip(s: string, p: string)
    requires |p| > 0 && !IsSpace(p[0]) && !IsSpace(p[|p| - 1])
    ensures Contains(Strip(s), p) <==> Contains(s, p)
  {
    if Contains(Strip(s), p) { ContainsFromStrip(s, p); }
    if Contains(s, p) { ContainsToStrip(s, p); }
  }

  /**
   * The first index holding `c`, if any; the email pattern uses it to
   * locate its `@`, which neither side of the address may contain.
   */
  function FirstIndex(s: string, c: char): (r: Option<nat>)
    ensures r.Some? ==> r.value < |s| && s[r.value] == c
    ensures r.Some? ==> forall k :: 0 <= k < r.value ==> s[k] != c
    ensures r.None? ==> forall k :: 0 <= k < |s| ==> s[k] != c
  {
    if s == [] then None
    else if s[0] == c then Some(0)
    else match FirstIndex(s[1..], c)
      case None => None
      case Some(i) => Some(i + 1)
  }

  /**
   * The last index holding `c`, if any; the email pattern uses it to
   * locate the `.` before the top-level domain, which has letters only.
   */
  function LastIndex(s: string, c: char): (r: Option<nat>)
    ensures r.Some? ==> r.value < |s| && s[r.value] == c
    ensures r.Some? ==> forall k :: r.value < k < |s| ==> s[k] != c
    ensures r.None? ==> forall k :: 0 <= k < |s| ==> s[k] != c
  {
    if s == [] then None
    else if s[|s| - 1] == c then Some(|s| - 1)
    else LastIndex(s[..|s| - 1], c)
  }

  lemma FirstIndexAt(s: string, c: char, n: nat)
    requires n < |s| && s[n] == c && forall k :: 0 <= k < n ==> s[k] != c
    ensures FirstIndex(s, c) == Some(n)
  {
  }

  lemma LastIndexAt(s: string, c: char, n: nat)
    requires n < |s| && s[n] == c && forall k :: n < k < |s| ==> s[k] != c
    ensures LastIndex(s, c) == Some(n)
  {
  }
}
