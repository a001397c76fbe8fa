/**
 * The pieces of JavaScript's String API the plugin relies on: `trim` and `indexOf`.
 * `startsWith(p)` is Dafny's prefix test `p <= s` and `slice(n)` is `s[n..]`.
 * Strings are sequences of code points; UTF-16 code units are not modelled.
 */
module JsString {

  /**
   * The code points `String.prototype.trim` removes: WhiteSpace (TAB, VT, FF, ZWNBSP and the
   * Space_Separator category) and LineTerminator (LF, CR, LS, PS), sections 12.2 and 12.3 of ECMA-262.
   */
  predicate IsWhitespace(c: char)
  {
    c == '\t' || c == '\n' || c == '\U{000B}' || c == '\U{000C}' || c == '\r' || c == ' ' ||
    c == '\U{00A0}' || c == '\U{1680}' || ('\U{2000}' <= c <= '\U{200A}') ||
    c == '\U{2028}' || c == '\U{2029}' || c == '\U{202F}' || c == '\U{205F}' ||
    c == '\U{3000}' || c == '\U{FEFF}'
  }

  predicate AllWhitespace(s: string)
  {
    forall i :: 0 <= i < |s| ==> IsWhitespace(s[i])
  }

  /** True when the text neither starts nor ends with whitespace. */
  predicate Unpadded(s: string)
  {
    s == [] || (!IsWhitespace(s[0]) && !IsWhitespace(s[|s| - 1]))
  }

  /** The length of the longest all-whitespace prefix of `s`. */
  function LeadingWhitespace(s: string): (n: nat)
    ensures n <= |s|
    ensures AllWhitespace(s[..n])
    ensures n < |s| ==> !IsWhitespace(s[n])
  {
    if s == [] || !IsWhitespace(s[0]) then 0
    else
      var m := LeadingWhitespace(s[1..]);
      assert forall i :: 1 <= i < 1 + m ==> s[i] == s[1..][..m][i - 1];
      1 + m
  }

  /** The length of the longest all-whitespace suffix of `s`. */
  function TrailingWhitespace(s: string): (n: nat)
    ensures n <= |s|
    ensures AllWhitespace(s[|s| - n..])
    ensures n < |s| ==> !IsWhitespace(s[|s| - 1 - n])
  {
    if s == [] || !IsWhitespace(s[|s| - 1]) then 0
    else
      var init := s[..|s| - 1];
      var m := TrailingWhitespace(init);
      assert forall i :: |s| - 1 - m <= i < |s| - 1 ==> s[i] == init[|init| - m..][i - (|init| - m)];
      m + 1
  }

  /**
   * `String.prototype.trim`: `s` is whitespace, then the result, then whitespace, and the
   * result is unpadded; it is empty exactly when `s` is all whitespace.
   */
  function Trim(s: string): (r: string)
    ensures LeadingWhitespace(s) + |r| <= |s|
    ensures s == s[..LeadingWhitespace(s)] + r + s[LeadingWhitespace(s) + |r|..]
    ensures AllWhitespace(s[..LeadingWhitespace(s)]) && AllWhitespace(s[LeadingWhitespace(s) + |r|..])
    ensures Unpadded(r)
    ensures r == [] <==> AllWhitespace(s)
  {
    var a := LeadingWhitespace(s);
    var rest := s[a..];
    var b := TrailingWhitespace(rest);
    assert a < |s| ==> b < |rest|;
    assert rest[|rest| - b..] == s[a + (|rest| - b)..];
    assert AllWhitespace(s) ==> a == |s|;
    assert a == |s| ==> AllWhitespace(s) by {
      if a == |s| {
        assert s[..a] == s;
      }
    }
    rest[..|rest| - b]
  }

  /** `LeadingWhitespace` is pinned down by the first non-whitespace character. */
  lemma LeadingWhitespaceAt(s: string, k: nat)
    requires k < |s| && AllWhitespace(s[..k]) && !IsWhitespace(s[k])
    ensures LeadingWhitespace(s) == k
  {
  }

  /** `TrailingWhitespace` is pinned down by the last non-whitespace character. */
  lemma TrailingWhitespaceAt(s: string, k: nat)
    requires k < |s| && AllWhitespace(s[|s| - k..]) && !IsWhitespace(s[|s| - 1 - k])
    ensures TrailingWhitespace(s) == k
  {
  }

  /** Whitespace around an unpadded text is exactly what `trim` removes. */
  lemma TrimUnique(pre: string, t: string, post: string)
    requires AllWhitespace(pre) && AllWhitespace(post) && Unpadded(t)
    ensures Trim(pre + t + post) == t
  {
    var s := pre + t + post;
    if t == [] {
      assert AllWhitespace(s) by {
        forall i | 0 <= i < |s| ensures IsWhitespace(s[i]) {
          if i < |pre| { assert s[i] == pre[i]; } else { assert s[i] == post[i - |pre|]; }
        }
      }
    } else {
      assert s[..|pre|] == pre;
      assert s[|pre|] == t[0];
      LeadingWhitespaceAt(s, |pre|);
      var rest := s[|pre|..];
      assert rest == t + post;
      assert rest[|rest| - |post|..] == post;
      assert rest[|rest| - 1 - |post|] == t[|t| - 1];
      TrailingWhitespaceAt(rest, |post|);
      assert rest[..|rest| - |post|] == t;
    }
  }

  /** Trimming twice is trimming once. */
  lemma TrimIdempotent(s: string)
    ensures Trim(Trim(s)) == Trim(s)
  {
    var r := Trim(s);
    assert [] + r + [] == r;
    TrimUnique([], r, []);
  }

  /** `pat` occurs in `s` starting at index `i`. */
  predicate OccursAt(s: string, pat: string, i: nat)
  {
    i + |pat| <= |s| && s[i..i + |pat|] == pat
  }

  /** `s.indexOf(pat, from)`: the first occurrence at or after `from`, or -1. */
  function IndexFrom(s: string, pat: string, from: nat): (r: int)
    requires from <= |s|
    ensures r == -1 || from <= r <= |s|
    ensures r == -1 <==> forall i :: from <= i <= |s| ==> !OccursAt(s, pat, i)
    ensures r >= 0 ==> OccursAt(s, pat, r) && forall i :: from <= i < r ==> !OccursAt(s, pat, i)
    decreases |s| - from
  {
    if OccursAt(s, pat, from) then from
    else if from == |s| then -1
    else IndexFrom(s, pat, from + 1)
  }

  /** `s.indexOf(pat)`: the index of the first occurrence of `pat`, or -1 when there is none. */
  function IndexOf(s: string, pat: string): (r: int)
    ensures r == -1 || 0 <= r <= |s| - |pat|
    ensures r == -1 <==> forall i :: 0 <= i <= |s| ==> !OccursAt(s, pat, i)
    ensures r >= 0 ==> OccursAt(s, pat, r) && forall i :: 0 <= i < r ==> !OccursAt(s, pat, i)
  {
    IndexFrom(s, pat, 0)
  }

  /** The first occurrence is unique: any occurrence with none before it is the one `indexOf` finds. */
  lemma IndexOfFirst(s: string, pat: string, k: nat)
    requires OccursAt(s, pat, k)
    requires forall i :: 0 <= i < k ==> !OccursAt(s, pat, i)
    ensures IndexOf(s, pat) == k
  {
    var r := IndexOf(s, pat);
    assert r != -1;
  }
}
