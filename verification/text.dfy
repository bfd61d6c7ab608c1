/** The two JavaScript string operations the bearer-token extraction relies on:
    `s.split(' ').pop()` and `String.prototype.trim`. */
module Text {

  /** The characters `String.prototype.trim` removes: the ECMAScript WhiteSpace
      and LineTerminator code points. */
  predicate IsJsWhitespace(ch: char)
  {
    || ch == '\t' || ch == '\n' || ch == '\U{B}' || ch == '\U{C}' || ch == '\r'
    || ch == ' ' || ch == '\U{A0}' || ch == '\U{1680}'
    || ('\U{2000}' <= ch <= '\U{200A}')
    || ch == '\U{2028}' || ch == '\U{2029}' || ch == '\U{202F}' || ch == '\U{205F}'
    || ch == '\U{3000}' || ch == '\U{FEFF}'
  }

  /** `s.split(' ').pop()`: the text after the last space, or all of `s` when it has none. */
  function LastSegment(s: string): (r: string)
    ensures |r| <= |s| && s == s[..|s| - |r|] + r
    ensures ' ' !in r
    ensures |r| < |s| ==> s[|s| - |r| - 1] == ' '
  {
    if s == [] then []
    else if s[|s| - 1] == ' ' then []
    else
      var pre := s[..|s| - 1];
      var init := LastSegment(pre);
      var k := |pre| - |init|;
      assert pre == pre[..k] + init;
      assert s[..k] == pre[..k];
      assert s == pre + [s[|s| - 1]];
      assert s == s[..k] + (init + [s[|s| - 1]]);
      assert k > 0 ==> s[k - 1] == pre[k - 1];
      init + [s[|s| - 1]]
  }

  /** The characterisation above pins `LastSegment` down: any split of `s` into a
      prefix ending in a space and a space-free tail yields that tail. */
  lemma {:induction false} LastSegmentOfSpaceSeparated(p: string, t: string)
    requires p != [] && p[|p| - 1] == ' '
    requires ' ' !in t
    ensures LastSegment(p + t) == t
  {
    if t == [] {
      assert p + t == p;
    } else {
      var t' := t[..|t| - 1];
      assert ' ' !in t' by {
        forall k | 0 <= k < |t'| ensures t'[k] != ' ' { assert t'[k] == t[k]; }
      }
      LastSegmentOfSpaceSeparated(p, t');
      assert (p + t)[..|p + t| - 1] == p + t';
      assert t == t' + [t[|t| - 1]];
    }
  }

  /** `s` with leading JavaScript whitespace removed. */
  function TrimStart(s: string): (r: string)
    ensures |r| <= |s| && r == s[|s| - |r|..]
    ensures forall k :: 0 <= k < |s| - |r| ==> IsJsWhitespace(s[k])
    ensures r == [] || !IsJsWhitespace(r[0])
  {
    if s != [] && IsJsWhitespace(s[0]) then TrimStart(s[1..]) else s
  }

  /** `s` with trailing JavaScript whitespace removed. */
  function TrimEnd(s: string): (r: string)
    ensures |r| <= |s| && r == s[..|r|]
    ensures forall k :: |r| <= k < |s| ==> IsJsWhitespace(s[k])
    ensures r == [] || !IsJsWhitespace(r[|r| - 1])
  {
    if s != [] && IsJsWhitespace(s[|s| - 1]) then TrimEnd(s[..|s| - 1]) else s
  }

  /** `String.prototype.trim`: the longest slice of `s` that neither starts nor ends
      with whitespace, everything cut off on either side being whitespace. */
  function Trim(s: string): (r: string)
    ensures |r| <= |s|
    ensures r == [] || (!IsJsWhitespace(r[0]) && !IsJsWhitespace(r[|r| - 1]))
    ensures exists i :: TrimmedAt(s, r, i)
  {
    var e := TrimEnd(s);
    var r := TrimStart(e);
    var i := |e| - |r|;
    assert i + |r| == |e|;
    assert r == e[i..] == s[i..i + |r|];
    forall k | 0 <= k < i ensures IsJsWhitespace(s[k]) {
      assert e[k] == s[k];
    }
    assert TrimmedAt(s, r, i);
    r
  }

  /** `r` is the slice of `s` starting at `i`, and everything of `s` outside it is whitespace. */
  ghost predicate TrimmedAt(s: string, r: string, i: int)
  {
    && 0 <= i <= |s| - |r|
    && r == s[i..i + |r|]
    && (forall k :: 0 <= k < i ==> IsJsWhitespace(s[k]))
    && (forall k :: i + |r| <= k < |s| ==> IsJsWhitespace(s[k]))
  }

  /** Trimming cannot bring in a space that was not there. */
  lemma TrimKeepsNoSpace(s: string)
    requires ' ' !in s
    ensures ' ' !in Trim(s)
  {
    var r := Trim(s);
    var i :| TrimmedAt(s, r, i);
    forall k | 0 <= k < |r| ensures r[k] != ' ' {
      assert r[k] == s[i + k];
    }
  }

  /** Trimming a string that already has no whitespace at either end changes nothing. */
  lemma TrimOfTrimmed(s: string)
    requires s == [] || (!IsJsWhitespace(s[0]) && !IsJsWhitespace(s[|s| - 1]))
    ensures Trim(s) == s
  {
    assert TrimEnd(s) == s;
    assert TrimStart(s) == s;
  }
}
