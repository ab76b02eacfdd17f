/** The few Python string operations the handlers and scripts rely on. */
module PyText {

  /** The characters for which Python's `str.isspace()` holds, which are exactly
      the characters `str.strip()` (no argument) removes at both ends. */
  predicate IsSpace(c: char) {
    || c == ' '
    || '\t' <= c <= '\r'
    || '\U{1C}' <= c <= '\U{1F}'
    || c == '\U{85}' || c == '\U{A0}' || c == '\U{1680}'
    || '\U{2000}' <= c <= '\U{200A}'
    || c == '\U{2028}' || c == '\U{2029}' || c == '\U{202F}'
    || c == '\U{205F}' || c == '\U{3000}'
  }

  predicate AllSpace(s: string) {
    forall i :: 0 <= i < |s| ==> IsSpace(s[i])
  }

  /** `s.lstrip()`: the suffix left after dropping the leading run of spaces. */
  function TrimStart(s: string): (r: string)
    ensures |r| <= |s| && r == s[|s| - |r|..]
    ensures r == [] || !IsSpace(r[0])
    ensures forall i :: 0 <= i < |s| - |r| ==> IsSpace(s[i])
  {
    if s != [] && IsSpace(s[0]) then TrimStart(s[1..]) else s
  }

  /** `s.rstrip()`: the prefix left after dropping the trailing run of spaces. */
  function TrimEnd(s: string): (r: string)
    ensures |r| <= |s| && r == s[..|r|]
    ensures r == [] || !IsSpace(r[|r| - 1])
    ensures forall i :: |r| <= i < |s| ==> IsSpace(s[i])
  {
    if s != [] && IsSpace(s[|s| - 1]) then TrimEnd(s[..|s| - 1]) else s
  }

  /** `s.strip()`: the slice `s[lo..hi]` between a leading and a trailing run of spaces,
      which neither starts nor ends with a space; it is empty exactly for blank input. */
  function Strip(s: string): (r: string)
    ensures exists lo :: 0 <= lo <= |s| - |r| && r == s[lo..lo + |r|]
                      && AllSpace(s[..lo]) && AllSpace(s[lo + |r|..])
    ensures r != [] ==> !IsSpace(r[0]) && !IsSpace(r[|r| - 1])
    ensures r == [] <==> AllSpace(s)
  {
    var t := TrimStart(s);
    var r := TrimEnd(t);
    var lo := |s| - |t|;
    assert r == s[lo..lo + |r|];
    assert AllSpace(s[..lo]);
    assert AllSpace(s[lo + |r|..]) by {
      forall i | lo + |r| <= i < |s| ensures IsSpace(s[i]) {
        assert s[i] == t[i - lo];
      }
    }
    assert r == [] ==> t == [];
    r
  }

  /** Stripping a stripped string changes nothing. */
  lemma {:induction false} StripIdempotent(s: string)
    ensures Strip(Strip(s)) == Strip(s)
  {
    var r := Strip(s);
    if r != [] {
      assert TrimStart(r) == r;
      assert TrimEnd(r) == r;
    }
  }

  /** `sub in s`: `sub` occurs at some position of `s`. */
  ghost predicate Contains(s: string, sub: string) {
    exists i :: 0 <= i <= |s| && sub <= s[i..]
  }

  /** Python's `sub in s`, scanning the start positions from left to right. */
  function Occurs(sub: string, s: string): (r: bool)
    ensures r <==> Contains(s, sub)
  {
    if sub <= s then
      assert s[0..] == s;
      true
    else if s == [] then
      false
    else
      var rest := Occurs(sub, s[1..]);
      assert forall i :: 1 <= i <= |s| ==> s[i..] == s[1..][i - 1..];
      assert rest ==> Contains(s, sub) by {
        if rest {
          var i :| 0 <= i <= |s[1..]| && sub <= s[1..][i..];
          assert s[1..][i..] == s[i + 1..];
        }
      }
      rest
  }

  /** Occurrence is transitive: a string inside a substring of `s` is inside `s`. */
  lemma {:induction false} ContainsTransitive(s: string, mid: string, sub: string)
    requires Contains(s, mid) && Contains(mid, sub)
    ensures Contains(s, sub)
  {
    var i :| 0 <= i <= |s| && mid <= s[i..];
    var j :| 0 <= j <= |mid| && sub <= mid[j..];
    assert s[i + j..][..|sub|] == mid[j..][..|sub|];
    assert sub <= s[i + j..];
  }

  /** Every string occurs in its own extensions. */
  lemma {:induction false} ContainsInfix(pre: string, mid: string, post: string)
    ensures Contains(pre + mid + post, mid)
  {
    var s := pre + mid + post;
    assert s[|pre|..][..|mid|] == mid;
  }

  /** Python's `str.lower()` on the ASCII letters; every other character is kept. */
  function LowerChar(c: char): char {
    if 'A' <= c <= 'Z' then (c as int + 32) as char else c
  }

  function Lower(s: string): string {
    seq(|s|, i requires 0 <= i < |s| => LowerChar(s[i]))
  }

  /** Equality up to the case of ASCII letters, character by character. */
  predicate EqualsIgnoringCase(a: string, b: string) {
    |a| == |b| && forall i :: 0 <= i < |a| ==> LowerChar(a[i]) == LowerChar(b[i])
  }

  /** `s.endswith(suffix)`. */
  predicate EndsWith(s: string, suffix: string) {
    |suffix| <= |s| && s[|s| - |suffix|..] == suffix
  }
}
