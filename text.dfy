/**
 * String trimming as done by JavaScript's `String.prototype.trim`: it strips
 * every leading and trailing code point that ECMAScript classifies as
 * WhiteSpace or LineTerminator, and keeps everything in between.
 */
module Text {

  /** WhiteSpace (TAB, VT, FF, SP, NBSP, ZWNBSP and the Zs category) and
      LineTerminator (LF, CR, LS, PS) code points of ECMAScript. */
  predicate IsWhitespace(c: char) {
    c == '\t' || c == '\n' || c == '\U{000B}' || c == '\U{000C}' || c == '\r' ||
    c == ' ' || c == '\U{00A0}' || c == '\U{1680}' ||
    ('\U{2000}' <= c <= '\U{200A}') ||
    c == '\U{2028}' || c == '\U{2029}' || c == '\U{202F}' || c == '\U{205F}' ||
    c == '\U{3000}' || c == '\U{FEFF}'
  }

  predicate AllWhitespace(s: string) {
    forall i :: 0 <= i < |s| ==> IsWhitespace(s[i])
  }

  /** Neither starts nor ends with whitespace. */
  predicate IsTrimmed(s: string) {
    s == [] || (!IsWhitespace(s[0]) && !IsWhitespace(s[|s| - 1]))
  }

  /** Position of the first non-whitespace character at or after `i`, or
      `|s|` when there is none. */
  function SkipLeading(s: string, i: nat): (k: nat)
    requires i <= |s|
    ensures i <= k <= |s|
    ensures forall j :: i <= j < k ==> IsWhitespace(s[j])
    ensures k < |s| ==> !IsWhitespace(s[k])
    decreases |s| - i
  {
    if i < |s| && IsWhitespace(s[i]) then SkipLeading(s, i + 1) else i
  }

  /** Position just after the last non-whitespace character before `j` and not
      before `lo`, or `lo` when there is none. */
  function SkipTrailing(s: string, lo: nat, j: nat): (k: nat)
    requires lo <= j <= |s|
    ensures lo <= k <= j
    ensures forall m :: k <= m < j ==> IsWhitespace(s[m])
    ensures k > lo ==> !IsWhitespace(s[k - 1])
    decreases j - lo
  {
    if j > lo && IsWhitespace(s[j - 1]) then SkipTrailing(s, lo, j - 1) else j
  }

  /** `title.trim()`: the part of `s` between a whitespace prefix and a
      whitespace suffix that neither starts nor ends with whitespace; it is
      empty exactly when `s` is blank. */
  function Trim(s: string): (r: string)
    ensures IsTrimmed(r)
    ensures exists a, b :: 0 <= a <= b <= |s| && r == s[a..b] &&
                           AllWhitespace(s[..a]) && AllWhitespace(s[b..])
    ensures r == [] <==> AllWhitespace(s)
  {
    var a := SkipLeading(s, 0);
    var b := SkipTrailing(s, a, |s|);
    assert AllWhitespace(s[..a]) && AllWhitespace(s[b..]);
    assert AllWhitespace(s) ==> a == |s|;
    assert b == a ==> a == |s|;
    s[a..b]
  }

  /** Reference characterisation: padding a trimmed string with whitespace on
      either side and trimming gives the string back. With the second
      postcondition of `Trim` this determines `Trim` completely. */
  lemma TrimPadded(p: string, m: string, q: string)
    requires AllWhitespace(p) && AllWhitespace(q) && IsTrimmed(m)
    ensures Trim(p + m + q) == m
  {
    var s := p + m + q;
    if m == [] {
      assert AllWhitespace(s) by {
        forall i | 0 <= i < |s| ensures IsWhitespace(s[i]) {
          if i >= |p| { assert s[i] == q[i - |p|]; }
        }
      }
    } else {
      assert s[|p|] == m[0] && s[|p| + |m| - 1] == m[|m| - 1];
      assert forall i :: 0 <= i < |p| ==> s[i] == p[i];
      assert forall i :: |p| + |m| <= i < |s| ==> s[i] == q[i - |p| - |m|];
      var a := SkipLeading(s, 0);
      assert a == |p|;
      var b := SkipTrailing(s, a, |s|);
      assert b == |p| + |m|;
      assert s[a..b] == m;
    }
  }

  /** Trimming twice is trimming once. */
  lemma TrimIdempotent(s: string)
    ensures Trim(Trim(s)) == Trim(s)
  {
    TrimPadded([], Trim(s), []);
    assert [] + Trim(s) + [] == Trim(s);
  }

  /** An example: surrounding spaces are removed, inner ones kept. */
  lemma TrimBuyMilk()
    ensures Trim("  Buy milk  ") == "Buy milk"
  {
    var s := "  Buy milk  ";
    assert SkipLeading(s, 0) == 2;
    assert SkipTrailing(s, 2, 12) == 10;
  }
}
