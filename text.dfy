/**
 * The JavaScript string built-ins that the core relies on: `trim`, `lastIndexOf`,
 * `indexOf`, `replace` with a string pattern (first occurrence only), `Array.join`
 * and number-to-string conversion. Strings are sequences of characters.
 */
module Text {

  /** JavaScript's WhiteSpace and LineTerminator characters, the ones `String.prototype.trim` removes. */
  predicate IsSpace(c: char) {
    || c == '\t' || c == '\n' || c == '\U{000B}' || c == '\U{000C}' || c == '\r' || c == ' '
    || c == '\U{00A0}' || c == '\U{1680}' || ('\U{2000}' <= c <= '\U{200A}')
    || c == '\U{2028}' || c == '\U{2029}' || c == '\U{202F}' || c == '\U{205F}'
    || c == '\U{3000}' || c == '\U{FEFF}'
  }

  predicate AllSpace(s: string) {
    forall k :: 0 <= k < |s| ==> IsSpace(s[k])
  }

  /** Neither end of `s` is whitespace. */
  predicate IsTrimmed(s: string) {
    s == [] || (!IsSpace(s[0]) && !IsSpace(s[|s| - 1]))
  }

  predicate EndsWith(s: string, suffix: string) {
    |suffix| <= |s| && s[|s| - |suffix|..] == suffix
  }

  /** The first index at or after `i` that does not hold whitespace, or `|s|`. */
  function SkipSpaces(s: string, i: nat): (k: nat)
    requires i <= |s|
    decreases |s| - i
    ensures i <= k <= |s|
  {
    if i == |s| || !IsSpace(s[i]) then i else SkipSpaces(s, i + 1)
  }

  /** `SkipSpaces` passes over whitespace only and stops at the first non-whitespace character. */
  lemma {:induction false} SkipSpacesSpec(s: string, i: nat)
    requires i <= |s|
    decreases |s| - i
    ensures forall m :: i <= m < SkipSpaces(s, i) ==> IsSpace(s[m])
    ensures SkipSpaces(s, i) < |s| ==> !IsSpace(s[SkipSpaces(s, i)])
  {
    if i < |s| && IsSpace(s[i]) {
      SkipSpacesSpec(s, i + 1);
    }
  }

  /** The end index, moving back from `j` but not past `lo`, once trailing whitespace is dropped. */
  function SkipSpacesBack(s: string, lo: nat, j: nat): (k: nat)
    requires lo <= j <= |s|
    ensures lo <= k <= j
  {
    if j == lo || !IsSpace(s[j - 1]) then j else SkipSpacesBack(s, lo, j - 1)
  }

  /** `SkipSpacesBack` passes over whitespace only and stops after a non-whitespace character or at `lo`. */
  lemma {:induction false} SkipSpacesBackSpec(s: string, lo: nat, j: nat)
    requires lo <= j <= |s|
    ensures forall m :: SkipSpacesBack(s, lo, j) <= m < j ==> IsSpace(s[m])
    ensures lo < SkipSpacesBack(s, lo, j) ==> !IsSpace(s[SkipSpacesBack(s, lo, j) - 1])
  {
    if j > lo && IsSpace(s[j - 1]) {
      SkipSpacesBackSpec(s, lo, j - 1);
    }
  }

  /**
   * `s.trim()`: the slice of `s` that starts after its leading whitespace and
   * stops before its trailing whitespace.
   */
  function Trim(s: string): (r: string)
    ensures |r| <= |s|
  {
    var lo := SkipSpaces(s, 0);
    s[lo..SkipSpacesBack(s, lo, |s|)]
  }

  /**
   * What `trim` promises: the result is a slice of `s` with whitespace at neither end,
   * only whitespace is cut away on either side, it is empty exactly when `s` is all
   * whitespace, and an already trimmed string comes back unchanged.
   */
  lemma TrimSpec(s: string)
    ensures var lo := SkipSpaces(s, 0);
      && lo + |Trim(s)| <= |s|
      && Trim(s) == s[lo..lo + |Trim(s)|]
      && AllSpace(s[..lo])
      && AllSpace(s[lo + |Trim(s)|..])
    ensures IsTrimmed(Trim(s))
    ensures Trim(s) == [] <==> AllSpace(s)
    ensures IsTrimmed(s) ==> Trim(s) == s
  {
    var lo := SkipSpaces(s, 0);
    SkipSpacesSpec(s, 0);
    SkipSpacesBackSpec(s, lo, |s|);
  }

  /** The index of the last `c` in `s[..n]`, or -1 when there is none. */
  function LastIndexBefore(s: string, c: char, n: nat): (r: int)
    requires n <= |s|
    ensures -1 <= r < n
  {
    if n == 0 then -1
    else if s[n - 1] == c then n - 1
    else LastIndexBefore(s, c, n - 1)
  }

  /** `s.lastIndexOf(c)`: the index of the last `c` in `s`, or -1 when there is none. */
  function LastIndexOf(s: string, c: char): (r: int)
    ensures -1 <= r < |s|
  {
    LastIndexBefore(s, c, |s|)
  }

  /** `LastIndexBefore` finds a `c` when it answers an index, and there is no `c` after it below `n`. */
  lemma {:induction false} LastIndexBeforeSpec(s: string, c: char, n: nat)
    requires n <= |s|
    ensures LastIndexBefore(s, c, n) >= 0 ==> s[LastIndexBefore(s, c, n)] == c
    ensures forall k :: LastIndexBefore(s, c, n) < k < n ==> s[k] != c
  {
    if n > 0 && s[n - 1] != c {
      LastIndexBeforeSpec(s, c, n - 1);
    }
  }

  /** `lastIndexOf` answers the position of the last `c`, or -1 exactly when `s` holds no `c`. */
  lemma LastIndexOfSpec(s: string, c: char)
    ensures LastIndexOf(s, c) >= 0 ==> s[LastIndexOf(s, c)] == c
    ensures forall k :: LastIndexOf(s, c) < k < |s| ==> s[k] != c
    ensures LastIndexOf(s, c) < 0 <==> c !in s
  {
    LastIndexBeforeSpec(s, c, |s|);
  }

  predicate OccursAt(s: string, pat: string, k: nat) {
    k + |pat| <= |s| && s[k..k + |pat|] == pat
  }

  /** The first occurrence of `pat` in `s` at or after `from`, or -1. */
  function IndexFrom(s: string, pat: string, from: nat): (r: int)
    decreases |s| - from
    ensures r == -1 || (from <= r && OccursAt(s, pat, r))
    ensures forall k: nat :: from <= k && (r < 0 || k < r) ==> !OccursAt(s, pat, k)
  {
    if from + |pat| > |s| then -1
    else if s[from..from + |pat|] == pat then from
    else IndexFrom(s, pat, from + 1)
  }

  /** `s.indexOf(pat)`. */
  function IndexOf(s: string, pat: string): (r: int)
    ensures r == -1 || (0 <= r && OccursAt(s, pat, r))
    ensures forall k: nat :: r < 0 || k < r ==> !OccursAt(s, pat, k)
  {
    IndexFrom(s, pat, 0)
  }

  /** `s.replace(pat, rep)` with a string pattern: only the first occurrence is replaced. */
  function ReplaceFirst(s: string, pat: string, rep: string): (r: string)
    ensures IndexOf(s, pat) < 0 ==> r == s
    ensures IndexOf(s, pat) >= 0 ==> |r| == |s| - |pat| + |rep|
  {
    var i := IndexOf(s, pat);
    if i < 0 then s else s[..i] + rep + s[i + |pat|..]
  }

  function TotalLength(parts: seq<string>): nat {
    if parts == [] then 0 else |parts[0]| + TotalLength(parts[1..])
  }

  /** `parts.join(sep)`. */
  function Join(parts: seq<string>, sep: string): (r: string)
    ensures parts == [] ==> r == ""
    ensures |parts| == 1 ==> r == parts[0]
    ensures |parts| > 1 ==> parts[0] + sep <= r
    ensures |parts| > 0 ==> |r| == TotalLength(parts) + |sep| * (|parts| - 1)
  {
    if |parts| == 0 then ""
    else if |parts| == 1 then parts[0]
    else parts[0] + sep + Join(parts[1..], sep)
  }

  function DigitChar(d: nat): (c: char)
    requires d < 10
    ensures '0' <= c <= '9'
  {
    (48 + d) as char
  }

  /** The decimal representation of a natural number. */
  function NatToString(n: nat): (r: string)
    ensures r != []
    ensures forall k :: 0 <= k < |r| ==> '0' <= r[k] <= '9'
  {
    if n < 10 then [DigitChar(n)] else NatToString(n / 10) + [DigitChar(n % 10)]
  }

  /** The decimal representation of an integer, as a template literal prints it. */
  function IntToString(i: int): (r: string)
    ensures r != []
    ensures (r[0] == '-') <==> i < 0
  {
    if i < 0 then "-" + NatToString(-i) else NatToString(i)
  }
}
