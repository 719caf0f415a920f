/**
 * The string operations the search filter relies on: `toLowerCase`
 * (restricted to ASCII letters), `trim` and `includes`.
 */
module Text {

  /** The characters `String.prototype.trim` removes: ECMAScript WhiteSpace and LineTerminator. */
  predicate IsWhitespace(c: char) {
    || c == '\t' || c == '\n' || c == '\U{000B}' || c == '\U{000C}' || c == '\r' || c == ' '
    || c == '\U{00A0}' || c == '\U{1680}' || ('\U{2000}' <= c <= '\U{200A}')
    || c == '\U{2028}' || c == '\U{2029}' || c == '\U{202F}' || c == '\U{205F}'
    || c == '\U{3000}' || c == '\U{FEFF}'
  }

  predicate AllWhitespace(s: string) {
    forall k :: 0 <= k < |s| ==> IsWhitespace(s[k])
  }

  predicate IsUpper(c: char) {
    'A' <= c <= 'Z'
  }

  predicate NoUpper(s: string) {
    forall k :: 0 <= k < |s| ==> !IsUpper(s[k])
  }

  function LowerChar(c: char): (r: char)
    ensures !IsUpper(r)
    ensures IsUpper(c) ==> r as int == c as int + 32
    ensures !IsUpper(c) ==> r == c
  {
    if IsUpper(c) then (c as int + 32) as char else c
  }

  /** `toLowerCase`: every upper-case ASCII letter replaced by its lower-case form. */
  function ToLower(s: string): (r: string)
    ensures |r| == |s| && NoUpper(r)
    ensures forall k :: 0 <= k < |s| ==> r[k] == LowerChar(s[k])
  {
    seq(|s|, k requires 0 <= k < |s| => LowerChar(s[k]))
  }

  /** A string with no upper-case letter is its own lower-case form. */
  lemma ToLowerOfLower(s: string)
    requires NoUpper(s)
    ensures ToLower(s) == s
  {
  }

  lemma ToLowerConcat(a: string, b: string)
    ensures ToLower(a + b) == ToLower(a) + ToLower(b)
  {
  }

  /** `trimStart`: the suffix left after dropping leading whitespace. */
  function TrimStart(s: string): (r: string)
    ensures |r| <= |s| && r == s[|s| - |r|..]
    ensures AllWhitespace(s[..|s| - |r|])
    ensures r != [] ==> !IsWhitespace(r[0])
    decreases |s|
  {
    if s != [] && IsWhitespace(s[0]) then
      var r := TrimStart(s[1..]);
      assert s[1..][|s| - 1 - |r|..] == s[|s| - |r|..];
      assert forall k :: 1 <= k < |s| - |r| ==> s[k] == s[1..][k - 1];
      r
    else s
  }

  /** `trimEnd`: the prefix left after dropping trailing whitespace. */
  function TrimEnd(s: string): (r: string)
    ensures |r| <= |s| && r == s[..|r|]
    ensures AllWhitespace(s[|r|..])
    ensures r != [] ==> !IsWhitespace(r[|r| - 1])
    decreases |s|
  {
    if s != [] && IsWhitespace(s[|s| - 1]) then
      var r := TrimEnd(s[..|s| - 1]);
      assert s[..|s| - 1][..|r|] == s[..|r|];
      assert forall k :: |r| <= k < |s| - 1 ==> s[k] == s[..|s| - 1][k];
      r
    else s
  }

  /** `trim`: the middle left after dropping leading and trailing whitespace. */
  function Trim(s: string): (r: string)
    ensures |r| <= |s|
    ensures r == [] <==> AllWhitespace(s)
    ensures r != [] ==> !IsWhitespace(r[0]) && !IsWhitespace(r[|r| - 1])
  {
    TrimEmptyMeansBlank(s);
    TrimEnd(TrimStart(s))
  }

  lemma TrimEmptyMeansBlank(s: string)
    ensures TrimEnd(TrimStart(s)) == [] <==> AllWhitespace(s)
  {
    var t := TrimStart(s);
    var a := LeadingPart(s);
    var b := TrailingPart(t);
    if TrimEnd(t) == [] {
      assert t == b;
      assert AllWhitespace(a + b);
    }
  }

  /** Leading whitespace does not change what `trimStart` keeps. */
  lemma {:induction false} TrimStartSkipsWhitespace(a: string, x: string)
    requires AllWhitespace(a)
    ensures TrimStart(a + x) == TrimStart(x)
    decreases |a|
  {
    if a != [] {
      assert (a + x)[0] == a[0];
      assert (a + x)[1..] == a[1..] + x;
      TrimStartSkipsWhitespace(a[1..], x);
    } else {
      assert a + x == x;
    }
  }

  /** Trailing whitespace does not change what `trimEnd` keeps. */
  lemma {:induction false} TrimEndSkipsWhitespace(x: string, b: string)
    requires AllWhitespace(b)
    ensures TrimEnd(x + b) == TrimEnd(x)
    decreases |b|
  {
    if b != [] {
      assert (x + b)[|x + b| - 1] == b[|b| - 1];
      assert (x + b)[..|x + b| - 1] == x + b[..|b| - 1];
      TrimEndSkipsWhitespace(x, b[..|b| - 1]);
    } else {
      assert x + b == x;
    }
  }

  /**
   * `trim` is determined by its description: whatever whitespace surrounds a
   * middle that neither starts nor ends with whitespace, `trim` returns that middle.
   */
  lemma TrimUnique(a: string, r: string, b: string)
    requires AllWhitespace(a) && AllWhitespace(b)
    requires r != [] ==> !IsWhitespace(r[0]) && !IsWhitespace(r[|r| - 1])
    ensures Trim(a + r + b) == r
  {
    if r == [] {
      assert a + r + b == a + b;
      assert AllWhitespace(a + b);
    } else {
      assert a + r + b == a + (r + b);
      TrimStartSkipsWhitespace(a, r + b);
      assert TrimStart(r + b) == r + b;
      TrimEndSkipsWhitespace(r, b);
      assert TrimEnd(r) == r;
    }
  }

  /** Every string is its trimmed form with the dropped whitespace around it. */
  lemma TrimDecompose(s: string) returns (a: string, b: string)
    ensures AllWhitespace(a) && AllWhitespace(b)
    ensures s == a + Trim(s) + b
  {
    var t := TrimStart(s);
    a := LeadingPart(s);
    b := TrailingPart(t);
    Concat3(s, a, t, TrimEnd(t), b);
  }

  lemma LeadingPart(s: string) returns (a: string)
    ensures AllWhitespace(a) && s == a + TrimStart(s)
  {
    a := s[..|s| - |TrimStart(s)|];
  }

  lemma TrailingPart(t: string) returns (b: string)
    ensures AllWhitespace(b) && t == TrimEnd(t) + b
  {
    b := t[|TrimEnd(t)|..];
  }

  lemma Concat3(s: string, a: string, t: string, r: string, b: string)
    requires s == a + t && t == r + b
    ensures s == a + r + b
  {
  }

  /** Trimming a string without upper-case letters leaves none. */
  lemma TrimKeepsNoUpper(s: string)
    requires NoUpper(s)
    ensures NoUpper(Trim(s))
  {
    var a, b := TrimDecompose(s);
    var r := Trim(s);
    assert forall k :: 0 <= k < |r| ==> r[k] == s[|a| + k];
  }

  /** A string that neither starts nor ends with whitespace is already trimmed. */
  lemma TrimOfTrimmed(r: string)
    requires r != [] ==> !IsWhitespace(r[0]) && !IsWhitespace(r[|r| - 1])
    ensures Trim(r) == r
  {
    var e: string := [];
    assert e + r + e == r;
    TrimUnique(e, r, e);
  }

  /** Trimming again changes nothing. */
  lemma TrimIdempotent(s: string)
    ensures Trim(Trim(s)) == Trim(s)
  {
    TrimOfTrimmed(Trim(s));
  }

  /** Whitespace added around a string is removed again by `trim`. */
  lemma TrimIgnoresPadding(w1: string, s: string, w2: string)
    requires AllWhitespace(w1) && AllWhitespace(w2)
    ensures Trim(w1 + s + w2) == Trim(s)
  {
    var a, b := TrimDecompose(s);
    var r := Trim(s);
    Regroup(w1, a, r, b, w2);
    WhitespaceConcat(w1, a);
    WhitespaceConcat(b, w2);
    TrimUnique(w1 + a, r, b + w2);
  }

  lemma WhitespaceConcat(x: string, y: string)
    requires AllWhitespace(x) && AllWhitespace(y)
    ensures AllWhitespace(x + y)
  {
  }

  lemma Regroup(w1: string, a: string, r: string, b: string, w2: string)
    ensures w1 + (a + r + b) + w2 == (w1 + a) + r + (b + w2)
  {
  }

  /** `needle` occurs in `hay` starting at index `i`. */
  ghost predicate OccursAt(hay: string, needle: string, i: int) {
    0 <= i && i + |needle| <= |hay| && hay[i..i + |needle|] == needle
  }

  /** `needle` is a contiguous part of `hay`. */
  ghost predicate IsSubstring(needle: string, hay: string) {
    exists i :: OccursAt(hay, needle, i)
  }

  lemma IncludesStep(hay: string, needle: string)
    requires |needle| <= |hay| && hay[..|needle|] != needle
    ensures IsSubstring(needle, hay) <==> IsSubstring(needle, hay[1..])
  {
    if IsSubstring(needle, hay) {
      var i :| OccursAt(hay, needle, i);
      assert i != 0;
      assert hay[1..][i - 1..i - 1 + |needle|] == hay[i..i + |needle|];
      assert OccursAt(hay[1..], needle, i - 1);
    }
    if IsSubstring(needle, hay[1..]) {
      var i :| OccursAt(hay[1..], needle, i);
      assert hay[1..][i..i + |needle|] == hay[i + 1..i + 1 + |needle|];
      assert OccursAt(hay, needle, i + 1);
    }
  }

  /** `hay.includes(needle)`: true exactly when `needle` occurs somewhere in `hay`. */
  function Includes(hay: string, needle: string): (r: bool)
    ensures r <==> IsSubstring(needle, hay)
    decreases |hay|
  {
    if |needle| > |hay| then false
    else if hay[..|needle|] == needle then assert OccursAt(hay, needle, 0); true
    else IncludesStep(hay, needle); Includes(hay[1..], needle)
  }

  /** Every string includes the empty string. */
  lemma IncludesEmpty(hay: string)
    ensures Includes(hay, [])
  {
    assert OccursAt(hay, [], 0);
  }

}
