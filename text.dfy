/**
 * The text handling activation relies on: Python's `str.strip()` applied to
 * the project-id file, and the shape of `str(uuid.uuid4())`.
 */
module Text {

  /** Python's `str.isspace()` for a single character. */
  predicate IsSpace(c: char)
  {
    c in {
      ' ', '\t', '\n', '\r', '\U{B}', '\U{C}',
      '\U{1C}', '\U{1D}', '\U{1E}', '\U{1F}', '\U{85}', '\U{A0}', '\U{1680}',
      '\U{2000}', '\U{2001}', '\U{2002}', '\U{2003}', '\U{2004}', '\U{2005}',
      '\U{2006}', '\U{2007}', '\U{2008}', '\U{2009}', '\U{200A}',
      '\U{2028}', '\U{2029}', '\U{202F}', '\U{205F}', '\U{3000}'
    }
  }

  /** The string neither starts nor ends with whitespace. */
  predicate IsTrimmed(s: string)
  {
    s == [] || (!IsSpace(s[0]) && !IsSpace(s[|s| - 1]))
  }

  /** Drops the longest whitespace prefix. */
  function TrimStart(s: string): (r: string)
    ensures |r| <= |s| && r == s[|s| - |r|..]
    ensures r == [] || !IsSpace(r[0])
    ensures forall i :: 0 <= i < |s| - |r| ==> IsSpace(s[i])
  {
    if s != [] && IsSpace(s[0]) then TrimStart(s[1..]) else s
  }

  /** Drops the longest whitespace suffix. */
  function TrimEnd(s: string): (r: string)
    ensures |r| <= |s| && r == s[..|r|]
    ensures r == [] || !IsSpace(r[|r| - 1])
    ensures forall i :: |r| <= i < |s| ==> IsSpace(s[i])
  {
    if s != [] && IsSpace(s[|s| - 1]) then TrimEnd(s[..|s| - 1]) else s
  }

  /**
   * `str.strip()`: removes whitespace at both ends and nothing else, so the
   * result is a contiguous piece of `s` that starts and ends with a
   * non-whitespace character (or is empty).
   */
  function Strip(s: string): (r: string)
    ensures IsTrimmed(r)
    ensures |r| <= |s|
    ensures r == [] ==> forall i :: 0 <= i < |s| ==> IsSpace(s[i])
  {
    TrimEnd(TrimStart(s))
  }

  /** Stripping changes a string exactly when it has whitespace at an end. */
  lemma StripFixesExactlyTrimmed(s: string)
    ensures Strip(s) == s <==> IsTrimmed(s)
  {
    if IsTrimmed(s) {
      var t := TrimStart(s);
      assert |t| == |s|;
      assert TrimEnd(t) == t;
    }
  }

  /** `strip` is idempotent. */
  lemma StripIdempotent(s: string)
    ensures Strip(Strip(s)) == Strip(s)
  {
    StripFixesExactlyTrimmed(Strip(s));
  }

  /** `r` is the slice of `s` starting at `a`, and everything of `s` around it is whitespace. */
  predicate IsMiddleOf(r: string, s: string, a: nat)
  {
    && a + |r| <= |s| && r == s[a..a + |r|]
    && (forall i :: 0 <= i < a ==> IsSpace(s[i]))
    && (forall i :: a + |r| <= i < |s| ==> IsSpace(s[i]))
  }

  /**
   * `strip` keeps exactly the middle of `s`: the result is the slice of `s`
   * left after cutting whitespace at both ends, and only whitespace is cut.
   */
  lemma StripIsMiddle(s: string)
    ensures exists a: nat :: IsMiddleOf(Strip(s), s, a)
  {
    var t := TrimStart(s);
    var a := |s| - |t|;
    var r := TrimEnd(t);
    assert r == Strip(s);
    assert t == s[a..] && r == t[..|r|];
    assert r == s[a..a + |r|];
    forall i | a + |r| <= i < |s|
      ensures IsSpace(s[i])
    {
      assert s[i] == t[i - a];
    }
    assert IsMiddleOf(r, s, a);
  }

  /** A lower-case hexadecimal digit. */
  predicate IsLowerHexDigit(c: char)
  {
    '0' <= c <= '9' || 'a' <= c <= 'f'
  }

  /**
   * The text of `str(uuid.uuid4())`: 36 characters, hyphens at positions
   * 8, 13, 18 and 23, lower-case hexadecimal digits elsewhere.
   */
  predicate IsUuidText(s: string)
  {
    && |s| == 36
    && forall i :: 0 <= i < |s| ==>
         if i == 8 || i == 13 || i == 18 || i == 23 then s[i] == '-' else IsLowerHexDigit(s[i])
  }

  lemma HexDigitIsNotSpace(c: char)
    requires IsLowerHexDigit(c)
    ensures !IsSpace(c)
  {
  }

  /** A UUID written to the project-id file strips back to itself. */
  lemma UuidTextIsTrimmed(s: string)
    requires IsUuidText(s)
    ensures Strip(s) == s
  {
    HexDigitIsNotSpace(s[0]);
    HexDigitIsNotSpace(s[35]);
    StripFixesExactlyTrimmed(s);
  }
}
