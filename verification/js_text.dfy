/** The two string operations grading applies to every answer: `String.prototype.trim` and
    `String.prototype.toLowerCase`, and their composition `Normalize`. */
module JsText {

  /** The code points `trim` removes: the ECMAScript WhiteSpace and LineTerminator characters. */
  predicate IsWhitespace(c: char) {
    || c == '\t' || c == '\n' || c == '\U{B}' || c == '\U{C}' || c == '\r' || c == ' '
    || c == '\U{A0}' || c == '\U{1680}' || ('\U{2000}' <= c <= '\U{200A}')
    || c == '\U{2028}' || c == '\U{2029}' || c == '\U{202F}' || c == '\U{205F}'
    || c == '\U{3000}' || c == '\U{FEFF}'
  }

  predicate AllWhitespace(s: string) {
    forall i :: 0 <= i < |s| ==> IsWhitespace(s[i])
  }

  /** Neither end of `s` is whitespace. */
  predicate IsTrimmed(s: string) {
    s == [] || (!IsWhitespace(s[0]) && !IsWhitespace(s[|s| - 1]))
  }

  /** Removes leading whitespace: the result is a suffix of `s`, and what was cut is all whitespace. */
  function TrimStart(s: string): (r: string)
    ensures |r| <= |s| && r == s[|s| - |r|..]
    ensures AllWhitespace(s[..|s| - |r|])
    ensures r == [] || !IsWhitespace(r[0])
  {
    if |s| > 0 && IsWhitespace(s[0]) then
      var r := TrimStart(s[1..]);
      assert s[..|s| - |r|] == [s[0]] + s[1..][..|s| - 1 - |r|];
      r
    else
      s
  }

  /** Removes trailing whitespace: the result is a prefix of `s`, and what was cut is all whitespace. */
  function TrimEnd(s: string): (r: string)
    ensures |r| <= |s| && r == s[..|r|]
    ensures AllWhitespace(s[|r|..])
    ensures r == [] || !IsWhitespace(r[|r| - 1])
  {
    if |s| > 0 && IsWhitespace(s[|s| - 1]) then
      var r := TrimEnd(s[..|s| - 1]);
      assert s[|r|..] == s[..|s| - 1][|r|..] + [s[|s| - 1]];
      r
    else
      s
  }

  /** `s.trim()`: a contiguous piece of `s` with no whitespace at either end. */
  function Trim(s: string): (r: string)
    ensures |r| <= |s|
    ensures IsTrimmed(r)
    ensures exists i :: 0 <= i <= |s| - |r| && r == s[i..i + |r|] && AllWhitespace(s[..i]) && AllWhitespace(s[i + |r|..])
  {
    var t := TrimStart(s);
    var r := TrimEnd(t);
    assert r != [] ==> r[0] == t[0];
    var i := |s| - |t|;
    assert r == s[i..i + |r|];
    assert s[i + |r|..] == t[|r|..];
    r
  }

  /** `toLowerCase` on one code point, for Basic Latin and Latin-1 capitals (including the German umlauts). */
  function ToLowerChar(c: char): char {
    if 'A' <= c <= 'Z' || ('\U{C0}' <= c <= '\U{DE}' && c != '\U{D7}') then
      (c as int + 32) as char
    else
      c
  }

  /** `s.toLowerCase()`, code point by code point. */
  function ToLower(s: string): (r: string)
    ensures |r| == |s|
    ensures forall i :: 0 <= i < |s| ==> r[i] == ToLowerChar(s[i])
  {
    seq(|s|, i requires 0 <= i < |s| => ToLowerChar(s[i]))
  }

  /** `s.trim().toLowerCase()`, the form in which answers are compared. */
  function Normalize(s: string): string {
    ToLower(Trim(s))
  }

  /** Lower-casing never creates or removes whitespace, and leaves whitespace as it is. */
  lemma LowerKeepsWhitespace(c: char)
    ensures IsWhitespace(ToLowerChar(c)) <==> IsWhitespace(c)
    ensures IsWhitespace(c) ==> ToLowerChar(c) == c
  {
  }

  lemma {:induction false} TrimStartCommutesWithLower(s: string)
    ensures TrimStart(ToLower(s)) == ToLower(TrimStart(s))
    decreases |s|
  {
    if |s| > 0 {
      LowerKeepsWhitespace(s[0]);
      assert ToLower(s)[1..] == ToLower(s[1..]);
      if IsWhitespace(s[0]) {
        TrimStartCommutesWithLower(s[1..]);
      }
    }
  }

  lemma {:induction false} TrimEndCommutesWithLower(s: string)
    ensures TrimEnd(ToLower(s)) == ToLower(TrimEnd(s))
    decreases |s|
  {
    if |s| > 0 {
      LowerKeepsWhitespace(s[|s| - 1]);
      assert ToLower(s)[..|s| - 1] == ToLower(s[..|s| - 1]);
      if IsWhitespace(s[|s| - 1]) {
        TrimEndCommutesWithLower(s[..|s| - 1]);
      }
    }
  }

  /** Trimming and lower-casing may be applied in either order. */
  lemma LowerCommutesWithTrim(s: string)
    ensures Trim(ToLower(s)) == ToLower(Trim(s))
  {
    TrimStartCommutesWithLower(s);
    TrimEndCommutesWithLower(TrimStart(s));
  }

  lemma {:induction false} TrimStartOfPadded(a: string, s: string)
    requires AllWhitespace(a)
    ensures TrimStart(a + s) == TrimStart(s)
    decreases |a|
  {
    if |a| > 0 {
      var t := a + s;
      assert t[0] == a[0] && IsWhitespace(t[0]);
      assert t[1..] == a[1..] + s;
      assert TrimStart(t) == TrimStart(t[1..]);
      TrimStartOfPadded(a[1..], s);
    } else {
      assert a + s == s;
    }
  }

  lemma {:induction false} TrimEndOfPadded(s: string, b: string)
    requires AllWhitespace(b)
    ensures TrimEnd(s + b) == TrimEnd(s)
    decreases |b|
  {
    if |b| > 0 {
      var t := s + b;
      assert t[|t| - 1] == b[|b| - 1] && IsWhitespace(t[|t| - 1]);
      assert t[..|t| - 1] == s + b[..|b| - 1];
      assert TrimEnd(t) == TrimEnd(t[..|t| - 1]);
      TrimEndOfPadded(s, b[..|b| - 1]);
    } else {
      assert s + b == s;
    }
  }

  lemma {:induction false} TrimOfTrailingPadded(s: string, b: string)
    requires AllWhitespace(b)
    ensures TrimEnd(TrimStart(s + b)) == TrimEnd(TrimStart(s))
    decreases |s|
  {
    if |s| == 0 {
      assert s + b == b;
      assert TrimStart(b) == [];
    } else if IsWhitespace(s[0]) {
      assert (s + b)[1..] == s[1..] + b;
      TrimOfTrailingPadded(s[1..], b);
    } else {
      assert (s + b)[0] == s[0];
      TrimEndOfPadded(s, b);
    }
  }

  /** Surrounding whitespace never changes the trimmed string. */
  lemma TrimIgnoresPadding(a: string, s: string, b: string)
    requires AllWhitespace(a) && AllWhitespace(b)
    ensures Trim(a + s + b) == Trim(s)
  {
    var padded := a + s + b;
    assert padded == a + (s + b);
    TrimStartOfPadded(a, s + b);
    assert TrimStart(padded) == TrimStart(s + b);
    TrimOfTrailingPadded(s, b);
    assert Trim(padded) == TrimEnd(TrimStart(padded));
    assert Trim(s) == TrimEnd(TrimStart(s));
  }

  /** A string with no whitespace at either end is its own trim. */
  lemma TrimOfTrimmed(s: string)
    requires IsTrimmed(s)
    ensures Trim(s) == s
  {
  }

  /** Normalizing twice is normalizing once. */
  lemma NormalizeIdempotent(s: string)
    ensures Normalize(Normalize(s)) == Normalize(s)
  {
    var t := Trim(s);
    var l := ToLower(t);
    assert Normalize(s) == l;
    LowerCommutesWithTrim(t);
    TrimOfTrimmed(t);
    assert Trim(l) == l;
    LowerTwice(t);
    assert Normalize(l) == ToLower(l);
  }

  /** Lower-casing a lower-cased string changes nothing. */
  lemma LowerTwice(s: string)
    ensures ToLower(ToLower(s)) == ToLower(s)
  {
    var l := ToLower(s);
    forall i | 0 <= i < |s| ensures ToLower(l)[i] == l[i] {
      assert ToLowerChar(ToLowerChar(s[i])) == ToLowerChar(s[i]);
    }
  }

  /** Leading and trailing whitespace in an answer does not matter. */
  lemma NormalizeIgnoresPadding(a: string, s: string, b: string)
    requires AllWhitespace(a) && AllWhitespace(b)
    ensures Normalize(a + s + b) == Normalize(s)
  {
    TrimIgnoresPadding(a, s, b);
  }

  /** Two answers that agree up to letter case normalize to the same string. */
  lemma NormalizeIgnoresCase(s: string, t: string)
    requires ToLower(s) == ToLower(t)
    ensures Normalize(s) == Normalize(t)
  {
    LowerCommutesWithTrim(s);
    LowerCommutesWithTrim(t);
  }
}
