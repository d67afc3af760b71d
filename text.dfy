/**
 * The string operations the pipeline relies on: Python's `str.strip()`
 * (no argument), the "blank" test `not s.strip()`, substring search,
 * `str.replace(old, "")`, ASCII `str.lower()` and the decimal rendering of a
 * non-negative `int` used in f-strings.
 */
module Text {

  /** The characters Python's `str.isspace()` accepts, which `str.strip()` removes. */
  predicate IsSpace(c: char) {
    || ('\U{9}' <= c <= '\U{D}')
    || ('\U{1C}' <= c <= '\U{20}')
    || c == '\U{85}' || c == '\U{A0}' || c == '\U{1680}'
    || ('\U{2000}' <= c <= '\U{200A}')
    || c == '\U{2028}' || c == '\U{2029}' || c == '\U{202F}' || c == '\U{205F}' || c == '\U{3000}'
  }

  /** `not s.strip()`: the string is empty or whitespace only. */
  predicate IsBlank(s: string) {
    forall k :: 0 <= k < |s| ==> IsSpace(s[k])
  }

  /** Neither end of `s` is whitespace. */
  predicate IsStripped(s: string) {
    s == [] || (!IsSpace(s[0]) && !IsSpace(s[|s| - 1]))
  }

  /** Number of leading whitespace characters. */
  function LeadCount(s: string): (n: nat)
    ensures n <= |s|
    ensures forall k :: 0 <= k < n ==> IsSpace(s[k])
    ensures n == |s| || !IsSpace(s[n])
  {
    if s != [] && IsSpace(s[0]) then 1 + LeadCount(s[1..]) else 0
  }

  /** Number of trailing whitespace characters. */
  function TrailCount(s: string): (n: nat)
    ensures n <= |s|
    ensures forall k :: |s| - n <= k < |s| ==> IsSpace(s[k])
    ensures n == |s| || !IsSpace(s[|s| - 1 - n])
  {
    if s != [] && IsSpace(s[|s| - 1]) then 1 + TrailCount(s[..|s| - 1]) else 0
  }

  /**
   * `s.strip()`: the slice of `s` left after removing leading and trailing
   * whitespace. Everything removed is whitespace, what is left is stripped,
   * and it is empty exactly when `s` is blank.
   */
  function Strip(s: string): (r: string)
    ensures LeadCount(s) + |r| <= |s|
    ensures r == s[LeadCount(s)..LeadCount(s) + |r|]
    ensures forall k :: 0 <= k < LeadCount(s) ==> IsSpace(s[k])
    ensures forall k :: LeadCount(s) + |r| <= k < |s| ==> IsSpace(s[k])
    ensures IsStripped(r)
    ensures r == [] <==> IsBlank(s)
  {
    var lead := LeadCount(s);
    var t := s[lead..];
    var r := t[..|t| - TrailCount(t)];
    assert forall k :: lead + |r| <= k < |s| ==> s[k] == t[k - lead];
    r
  }

  /** A stripped string is its own strip. */
  lemma StripStripped(s: string)
    requires IsStripped(s)
    ensures Strip(s) == s
  {
    assert LeadCount(s) == 0;
    assert TrailCount(s) == 0;
  }

  /** `strip()` is idempotent. */
  lemma StripIdempotent(s: string)
    ensures Strip(Strip(s)) == Strip(s)
  {
    StripStripped(Strip(s));
  }

  /** `pat in s` for strings: `pat` occurs somewhere in `s` as a contiguous block. */
  predicate Occurs(pat: string, s: string)
    decreases |s|
  {
    pat <= s || (s != [] && Occurs(pat, s[1..]))
  }

  /** An occurrence inside a slice is an occurrence in the whole string. */
  lemma {:induction false} OccursInSlice(pat: string, s: string, i: nat, j: nat)
    requires i <= j <= |s|
    requires Occurs(pat, s[i..j])
    ensures Occurs(pat, s)
    decreases j - i
  {
    var t := s[i..j];
    if pat <= t {
      OccursAt(pat, s, i);
    } else {
      assert t[1..] == s[i + 1..j];
      OccursInSlice(pat, s, i + 1, j);
    }
  }

  /** A match that starts at position `i` is an occurrence. */
  lemma {:induction false} OccursAt(pat: string, s: string, i: nat)
    requires i <= |s| && pat <= s[i..]
    ensures Occurs(pat, s)
    decreases i
  {
    if i > 0 {
      assert s[1..][i - 1..] == s[i..];
      OccursAt(pat, s[1..], i - 1);
    }
  }

  /**
   * `s.replace(pat, "")`: scan from the left, dropping every non-overlapping
   * occurrence of `pat`. The result is never longer than `s`.
   */
  function RemoveAll(s: string, pat: string): (r: string)
    requires pat != []
    ensures |r| <= |s|
    decreases |s|
  {
    if s == [] then []
    else if pat <= s then RemoveAll(s[|pat|..], pat)
    else [s[0]] + RemoveAll(s[1..], pat)
  }

  /** Removing a pattern that does not occur leaves the string as it was. */
  lemma {:induction false} RemoveAbsent(s: string, pat: string)
    requires pat != [] && !Occurs(pat, s)
    ensures RemoveAll(s, pat) == s
    decreases |s|
  {
    if s != [] {
      RemoveAbsent(s[1..], pat);
      assert [s[0]] + s[1..] == s;
    }
  }

  /** `str.lower()` on one character, for the ASCII letters. */
  function LowerChar(c: char): (d: char)
    ensures 'A' <= c <= 'Z' ==> 'a' <= d <= 'z'
    ensures !('A' <= c <= 'Z') ==> d == c
  {
    if 'A' <= c <= 'Z' then (c as int - 'A' as int + 'a' as int) as char else c
  }

  /** `str.lower()`, for the ASCII letters. */
  function Lower(s: string): (r: string)
    ensures |r| == |s|
    ensures forall k :: 0 <= k < |s| ==> r[k] == LowerChar(s[k])
  {
    seq(|s|, k requires 0 <= k < |s| => LowerChar(s[k]))
  }

  /** Lower-casing twice is lower-casing once. */
  lemma LowerIdempotent(s: string)
    ensures Lower(Lower(s)) == Lower(s)
  {
    forall k | 0 <= k < |s|
      ensures Lower(Lower(s))[k] == Lower(s)[k]
    {
      assert LowerChar(LowerChar(s[k])) == LowerChar(s[k]);
    }
  }

  /** The decimal digit for `d`. */
  function DigitChar(d: nat): (c: char)
    requires d < 10
    ensures '0' <= c <= '9'
    ensures c as int - '0' as int == d
  {
    ('0' as int + d) as char
  }

  /** `str(n)` for a non-negative integer: its decimal digits, without leading zeros. */
  function NatToString(n: nat): (s: string)
    ensures |s| >= 1
    ensures n >= 10 <==> |s| >= 2
    decreases n
  {
    if n < 10 then [DigitChar(n)] else NatToString(n / 10) + [DigitChar(n % 10)]
  }

  /** Different numbers print differently. */
  lemma {:induction false} NatToStringInjective(a: nat, b: nat)
    requires NatToString(a) == NatToString(b)
    ensures a == b
    decreases a
  {
    var s := NatToString(a);
    assert s[|s| - 1] == DigitChar(a % 10);
    assert s[|s| - 1] == DigitChar(b % 10);
    if a >= 10 {
      assert b >= 10;
      assert NatToString(a / 10) == s[..|s| - 1] == NatToString(b / 10);
      NatToStringInjective(a / 10, b / 10);
    }
  }
}
