/** `String.prototype.trim` of JavaScript: strips white space and line
    terminators from both ends of a string. */
module JsText {

  /** The characters `trim` strips: ECMAScript's WhiteSpace (tab, vertical tab,
      form feed, space, no-break space, the byte order mark and the other
      space separators of Unicode) and LineTerminator. */
  predicate IsWhiteSpace(c: char) {
    c == '\t' || c == '\U{000B}' || c == '\U{000C}' || c == ' ' || c == '\U{00A0}' || c == '\U{FEFF}' ||
    c == '\U{1680}' || ('\U{2000}' <= c <= '\U{200A}') || c == '\U{202F}' || c == '\U{205F}' || c == '\U{3000}' ||
    c == '\n' || c == '\r' || c == '\U{2028}' || c == '\U{2029}'
  }

  predicate AllWhiteSpace(s: string) {
    forall k :: 0 <= k < |s| ==> IsWhiteSpace(s[k])
  }

  /** Drops the white space at the start. */
  function TrimStart(s: string): (r: string)
    ensures |r| <= |s| && r == s[|s| - |r|..]
    ensures AllWhiteSpace(s[..|s| - |r|])
    ensures r == [] || !IsWhiteSpace(r[0])
  {
    if s != [] && IsWhiteSpace(s[0]) then
      var r := TrimStart(s[1..]);
      assert s[..|s| - |r|] == [s[0]] + s[1..][..|s| - 1 - |r|];
      r
    else s
  }

  /** Drops the white space at the end. */
  function TrimEnd(s: string): (r: string)
    ensures |r| <= |s| && r == s[..|r|]
    ensures AllWhiteSpace(s[|r|..])
    ensures r == [] || !IsWhiteSpace(r[|r| - 1])
  {
    if s != [] && IsWhiteSpace(s[|s| - 1]) then
      var r := TrimEnd(s[..|s| - 1]);
      assert s[|r|..] == s[..|s| - 1][|r|..] + [s[|s| - 1]];
      r
    else s
  }

  /** `s.trim()`: a slice of `s` that neither starts nor ends with white space,
      with only white space cut away around it. */
  function Trim(s: string): (r: string)
    ensures exists i :: 0 <= i <= i + |r| <= |s| && r == s[i..i + |r|] &&
              AllWhiteSpace(s[..i]) && AllWhiteSpace(s[i + |r|..])
    ensures r == [] || (!IsWhiteSpace(r[0]) && !IsWhiteSpace(r[|r| - 1]))
  {
    var t := TrimStart(s);
    var r := TrimEnd(t);
    var i := |s| - |t|;
    assert r == s[i..i + |r|];
    assert s[i + |r|..] == t[|r|..];
    r
  }

  /** A trimmed string is empty exactly when the string is all white space. */
  lemma TrimEmpty(s: string)
    ensures Trim(s) == [] <==> AllWhiteSpace(s)
  {
    var r := Trim(s);
    var i :| 0 <= i <= i + |r| <= |s| && r == s[i..i + |r|] && AllWhiteSpace(s[..i]) && AllWhiteSpace(s[i + |r|..]);
    if r == [] {
      forall k | 0 <= k < |s| ensures IsWhiteSpace(s[k]) {
        if k < i { assert s[k] == s[..i][k]; } else { assert s[k] == s[i..][k - i]; }
      }
    }
  }

  /** Trimming twice is trimming once. */
  lemma TrimIdempotent(s: string)
    ensures Trim(Trim(s)) == Trim(s)
  {
    var r := Trim(s);
    var r2 := Trim(r);
    var j :| 0 <= j <= j + |r2| <= |r| && r2 == r[j..j + |r2|] && AllWhiteSpace(r[..j]) && AllWhiteSpace(r[j + |r2|..]);
  }
}
