/**
 * The JavaScript string operations the client relies on: `includes`,
 * `toLowerCase` and `trim`. Strings are sequences of Dafny characters, which are
 * Unicode scalar values rather than the UTF-16 code units of JavaScript.
 */
module Text {

  /** WhiteSpace and LineTerminator code points of ECMAScript, the set `String.prototype.trim` strips. */
  predicate IsJsWhitespace(c: char)
  {
    || c == '\t' || c == '\n' || c == '\U{B}' || c == '\U{C}' || c == '\r' || c == ' '
    || c == '\U{A0}' || c == '\U{1680}' || ('\U{2000}' <= c <= '\U{200A}')
    || c == '\U{2028}' || c == '\U{2029}' || c == '\U{202F}' || c == '\U{205F}' || c == '\U{3000}'
    || c == '\U{FEFF}'
  }

  /** Upper-case letters of Basic Latin and of the Latin-1 Supplement (Á, É, Ñ, Ü ...). */
  predicate IsUpperLatin(c: char)
  {
    ('A' <= c <= 'Z') || ('À' <= c <= 'Þ' && c != '×')
  }

  /** `toLowerCase` on one character; characters outside the Latin letters above are kept. */
  function LowerChar(c: char): (r: char)
    ensures IsUpperLatin(c) ==> r as int == c as int + 32
    ensures !IsUpperLatin(c) ==> r == c
    ensures !IsUpperLatin(r)
  {
    if IsUpperLatin(c) then (c as int + 32) as char else c
  }

  function Lower(s: string): (r: string)
    ensures |r| == |s|
    ensures forall k :: 0 <= k < |s| ==> r[k] == LowerChar(s[k])
  {
    seq(|s|, k requires 0 <= k < |s| => LowerChar(s[k]))
  }

  /** `t` occurs in `s` starting at position `k`. */
  predicate OccursAt(t: string, s: string, k: int)
  {
    0 <= k <= |s| - |t| && s[k..k + |t|] == t
  }

  /** `t` occurs in `s` at some position: the meaning of `s.includes(t)`. */
  ghost predicate IsSubstring(t: string, s: string)
  {
    exists k :: OccursAt(t, s, k)
  }

  predicate StartsWith(s: string, t: string)
  {
    |t| <= |s| && s[..|t|] == t
  }

  /** `s.includes(t)`, scanning the start positions of `s` from the left. */
  predicate Includes(s: string, t: string)
    decreases |s|
  {
    StartsWith(s, t) || (s != [] && Includes(s[1..], t))
  }

  /** `includes` answers exactly whether `t` is a substring of `s`. */
  lemma {:induction false} IncludesIffSubstring(s: string, t: string)
    ensures Includes(s, t) <==> IsSubstring(t, s)
  {
    if StartsWith(s, t) {
      assert OccursAt(t, s, 0);
    } else if s != [] {
      IncludesIffSubstring(s[1..], t);
      if Includes(s[1..], t) {
        var k :| OccursAt(t, s[1..], k);
        assert 0 <= k && k + 1 + |t| <= |s|;
        assert s[1..][k..k + |t|] == s[k + 1..k + 1 + |t|];
        assert OccursAt(t, s, k + 1);
      }
      if IsSubstring(t, s) {
        var k :| OccursAt(t, s, k);
        assert k != 0;
        assert s[1..][k - 1..k - 1 + |t|] == s[k..k + |t|];
        assert OccursAt(t, s[1..], k - 1);
      }
    }
  }

  /** Every character of `s` is white space: `s.trim()` is the empty, falsy string. */
  predicate IsBlank(s: string)
  {
    forall k :: 0 <= k < |s| ==> IsJsWhitespace(s[k])
  }

  function TrimStart(s: string): (r: string)
    ensures |r| <= |s| && r == s[|s| - |r|..]
    ensures r != [] ==> !IsJsWhitespace(r[0])
    ensures r == [] <==> IsBlank(s)
  {
    if s != [] && IsJsWhitespace(s[0]) then TrimStart(s[1..]) else s
  }

  function TrimEnd(s: string): (r: string)
    ensures |r| <= |s| && r == s[..|r|]
    ensures r != [] ==> !IsJsWhitespace(r[|r| - 1])
    ensures r == [] <==> IsBlank(s)
  {
    if s != [] && IsJsWhitespace(s[|s| - 1]) then TrimEnd(s[..|s| - 1]) else s
  }

  /** `s.trim()`: `s` without leading and trailing white space. */
  function Trim(s: string): (r: string)
    ensures r == [] <==> IsBlank(s)
    ensures r != [] ==> !IsJsWhitespace(r[0]) && !IsJsWhitespace(r[|r| - 1])
    ensures exists i :: OccursAt(r, s, i)
  {
    var t := TrimStart(s);
    var r := TrimEnd(t);
    assert r != [] ==> r[0] == t[0];
    assert r == s[|s| - |t|..][..|r|] == s[|s| - |t|..|s| - |t| + |r|];
    assert OccursAt(r, s, |s| - |t|);
    r
  }

  /** What `TrimStart` drops is white space. */
  lemma {:induction false} TrimStartDropsBlank(s: string)
    ensures IsBlank(s[..|s| - |TrimStart(s)|])
  {
    if s != [] && IsJsWhitespace(s[0]) {
      TrimStartDropsBlank(s[1..]);
      var n := |s| - |TrimStart(s)|;
      assert forall k :: 1 <= k < n ==> s[k] == s[1..][..n - 1][k - 1];
    }
  }

  /** What `TrimEnd` drops is white space. */
  lemma {:induction false} TrimEndDropsBlank(s: string)
    ensures IsBlank(s[|TrimEnd(s)|..])
  {
    if s != [] && IsJsWhitespace(s[|s| - 1]) {
      var init := s[..|s| - 1];
      TrimEndDropsBlank(init);
      var n := |TrimEnd(s)|;
      assert forall k :: n <= k < |s| - 1 ==> s[k] == init[n..][k - n];
    }
  }

  /** `trim` removes white space at both ends and nothing else: the result sits inside `s` between two blank runs. */
  lemma TrimRemovesOnlyEnds(s: string)
    ensures exists i :: OccursAt(Trim(s), s, i) && IsBlank(s[..i]) && IsBlank(s[i + |Trim(s)|..])
  {
    var t := TrimStart(s);
    var i := |s| - |t|;
    var r := TrimEnd(t);
    TrimStartDropsBlank(s);
    TrimEndDropsBlank(t);
    assert r == s[i..i + |r|];
    assert s[i + |r|..] == t[|r|..];
    assert OccursAt(r, s, i);
  }
}
