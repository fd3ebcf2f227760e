/** JavaScript's `String.prototype.trim`, which both dashboard views apply to a
    typed task title before deciding whether to insert it. */
module Text {

  /** The code points ECMAScript counts as WhiteSpace or LineTerminator:
      tab, line feed, vertical tab, form feed, carriage return, space, no-break
      space, the byte-order mark, the Unicode space separators and the line and
      paragraph separators. */
  predicate IsSpace(c: char)
  {
    c == '\t' || c == '\n' || c == '\U{000B}' || c == '\U{000C}' || c == '\r'
    || c == ' ' || c == '\U{00A0}' || c == '\U{1680}'
    || ('\U{2000}' <= c && c <= '\U{200A}')
    || c == '\U{2028}' || c == '\U{2029}' || c == '\U{202F}' || c == '\U{205F}'
    || c == '\U{3000}' || c == '\U{FEFF}'
  }

  /** A string made of whitespace only (the empty string included). */
  ghost predicate IsBlank(s: string)
  {
    forall i :: 0 <= i < |s| ==> IsSpace(s[i])
  }

  /** The end of the run of whitespace that starts at `i`: everything in
      between is whitespace and the character there, if any, is not. */
  function SpaceRunEnd(s: string, i: nat): (k: nat)
    requires i <= |s|
    ensures i <= k <= |s|
    ensures forall j :: i <= j < k ==> IsSpace(s[j])
    ensures k == |s| || !IsSpace(s[k])
    decreases |s| - i
  {
    if i < |s| && IsSpace(s[i]) then SpaceRunEnd(s, i + 1) else i
  }

  /** The start of the run of whitespace that ends at `j`, looking no further
      left than `lo`: everything in between is whitespace and the character
      before it, unless that is `lo`, is not. */
  function SpaceRunStart(s: string, lo: nat, j: nat): (k: nat)
    requires lo <= j <= |s|
    ensures lo <= k <= j
    ensures forall m :: k <= m < j ==> IsSpace(s[m])
    ensures k == lo || !IsSpace(s[k - 1])
    decreases j
  {
    if lo < j && IsSpace(s[j - 1]) then SpaceRunStart(s, lo, j - 1) else j
  }

  /** `s.trim()`: the middle of `s` left once its whitespace at both ends is
      removed, so that neither end of the result is whitespace. */
  function Trim(s: string): (r: string)
    ensures |r| <= |s|
    ensures r == [] || (!IsSpace(r[0]) && !IsSpace(r[|r| - 1]))
    ensures exists k :: 0 <= k <= |s| - |r| && r == s[k..k + |r|]
                        && IsBlank(s[..k]) && IsBlank(s[k + |r|..])
  {
    var a := SpaceRunEnd(s, 0);
    var b := SpaceRunStart(s, a, |s|);
    assert IsBlank(s[..a]) by {
      forall j | 0 <= j < a ensures IsSpace(s[..a][j]) {
        assert s[..a][j] == s[j];
      }
    }
    assert IsBlank(s[b..]) by {
      forall j | 0 <= j < |s| - b ensures IsSpace(s[b..][j]) {
        assert s[b..][j] == s[b + j];
      }
    }
    assert s[a..b] == s[a..a + |s[a..b]|];
    s[a..b]
  }

  /** `!s.trim()` holds exactly for the blank strings. */
  lemma TrimEmptyIffBlank(s: string)
    ensures Trim(s) == [] <==> IsBlank(s)
  {
  }
}
