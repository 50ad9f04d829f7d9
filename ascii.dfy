/** The two string operations flight numbers go through, `toUpperCase` and
    `trim`, restricted to ASCII, with the facts about them that make the
    frontend's and the backend's normalisations agree. */
module Ascii {

  /** The ASCII characters that `String.prototype.trim` removes. */
  predicate IsWhitespace(c: char) {
    c == ' ' || c == '\t' || c == '\n' || c == '\U{B}' || c == '\U{C}' || c == '\r'
  }

  predicate IsLower(c: char) {
    'a' <= c <= 'z'
  }

  predicate IsUpperLetter(c: char) {
    'A' <= c <= 'Z'
  }

  /** `\d` in a JavaScript regular expression without the `u` flag. */
  predicate IsDigit(c: char) {
    '0' <= c <= '9'
  }

  /** Upper case of one character: lower-case ASCII letters move to their
      capitals, every other character is left alone. */
  function UpperChar(c: char): (u: char)
    ensures !IsLower(u)
    ensures IsWhitespace(u) <==> IsWhitespace(c)
    ensures !IsLower(c) ==> u == c
    ensures IsLower(c) ==> IsUpperLetter(u) && u as int + 32 == c as int
  {
    if IsLower(c) then (c as int - 32) as char else c
  }

  /** `s.toUpperCase()` over ASCII. */
  function ToUpper(s: string): (r: string)
    ensures |r| == |s|
    ensures forall i :: 0 <= i < |s| ==> r[i] == UpperChar(s[i])
  {
    seq(|s|, i requires 0 <= i < |s| => UpperChar(s[i]))
  }

  /** Leading whitespace removed: the result is the longest suffix of `s`
      that does not start with whitespace. */
  function TrimStart(s: string): (r: string)
    ensures |r| <= |s| && r == s[|s| - |r|..]
    ensures forall i :: 0 <= i < |s| - |r| ==> IsWhitespace(s[i])
    ensures r == [] || !IsWhitespace(r[0])
  {
    if |s| > 0 && IsWhitespace(s[0]) then TrimStart(s[1..]) else s
  }

  /** Trailing whitespace removed: the result is the longest prefix of `s`
      that does not end with whitespace. */
  function TrimEnd(s: string): (r: string)
    ensures |r| <= |s| && r == s[..|r|]
    ensures forall i :: |r| <= i < |s| ==> IsWhitespace(s[i])
    ensures r == [] || !IsWhitespace(r[|r| - 1])
  {
    if |s| > 0 && IsWhitespace(s[|s| - 1]) then TrimEnd(s[..|s| - 1]) else s
  }

  /** `s.trim()` over ASCII. */
  function Trim(s: string): (r: string)
    ensures var start := |s| - |TrimStart(s)|; start + |r| <= |s| && r == s[start..start + |r|]
    ensures forall i :: 0 <= i < |s| - |TrimStart(s)| ==> IsWhitespace(s[i])
    ensures forall i :: |s| - |TrimStart(s)| + |r| <= i < |s| ==> IsWhitespace(s[i])
    ensures r == [] || (!IsWhitespace(r[0]) && !IsWhitespace(r[|r| - 1]))
  {
    PrefixOfSuffix(s, TrimStart(s), TrimEnd(TrimStart(s)));
    TrimEnd(TrimStart(s))
  }

  /** A prefix `r` of a suffix `t` of `s` is a slice of `s`. */
  lemma PrefixOfSuffix(s: string, t: string, r: string)
    requires |t| <= |s| && t == s[|s| - |t|..]
    requires |r| <= |t| && r == t[..|r|]
    ensures |s| - |t| + |r| <= |s| && r == s[|s| - |t|..|s| - |t| + |r|]
    ensures r != [] ==> r[0] == t[0]
  {
  }

  lemma {:induction false} TrimStartOfTrimmed(s: string)
    requires s == [] || !IsWhitespace(s[0])
    ensures TrimStart(s) == s
  {
  }

  lemma {:induction false} TrimEndOfTrimmed(s: string)
    requires s == [] || !IsWhitespace(s[|s| - 1])
    ensures TrimEnd(s) == s
  {
  }

  /** Trimming twice is trimming once. */
  lemma TrimIdempotent(s: string)
    ensures Trim(Trim(s)) == Trim(s)
  {
    var t := Trim(s);
    TrimStartOfTrimmed(t);
    TrimEndOfTrimmed(t);
  }

  /** Upper-casing twice is upper-casing once. */
  lemma ToUpperIdempotent(s: string)
    ensures ToUpper(ToUpper(s)) == ToUpper(s)
  {
  }

  lemma {:induction false} TrimStartCommutesWithUpper(s: string)
    ensures TrimStart(ToUpper(s)) == ToUpper(TrimStart(s))
    decreases |s|
  {
    if |s| > 0 && IsWhitespace(s[0]) {
      assert ToUpper(s)[1..] == ToUpper(s[1..]);
      TrimStartCommutesWithUpper(s[1..]);
    }
  }

  lemma {:induction false} TrimEndCommutesWithUpper(s: string)
    ensures TrimEnd(ToUpper(s)) == ToUpper(TrimEnd(s))
    decreases |s|
  {
    if |s| > 0 && IsWhitespace(s[|s| - 1]) {
      assert ToUpper(s)[..|s| - 1] == ToUpper(s[..|s| - 1]);
      TrimEndCommutesWithUpper(s[..|s| - 1]);
    }
  }

  /** Over ASCII, `toUpperCase().trim()` (the backend's order) and
      `trim().toUpperCase()` (the frontend's order) agree. */
  lemma UpperCommutesWithTrim(s: string)
    ensures Trim(ToUpper(s)) == ToUpper(Trim(s))
  {
    TrimStartCommutesWithUpper(s);
    TrimEndCommutesWithUpper(TrimStart(s));
  }

  /** Upper-casing leaves whitespace padding as it is. */
  lemma UpperKeepsPadding(padLeft: string, s: string, padRight: string)
    requires forall i :: 0 <= i < |padLeft| ==> IsWhitespace(padLeft[i])
    requires forall i :: 0 <= i < |padRight| ==> IsWhitespace(padRight[i])
    ensures ToUpper(padLeft + s + padRight) == padLeft + ToUpper(s) + padRight
  {
    var whole, upper := padLeft + s + padRight, padLeft + ToUpper(s) + padRight;
    forall i | 0 <= i < |whole|
      ensures ToUpper(whole)[i] == upper[i]
    {
      if i < |padLeft| {
        assert whole[i] == padLeft[i] == upper[i];
      } else if i < |padLeft| + |s| {
        assert whole[i] == s[i - |padLeft|];
        assert upper[i] == ToUpper(s)[i - |padLeft|];
      } else {
        assert whole[i] == padRight[i - |padLeft| - |s|] == upper[i];
      }
    }
  }

  /** Whitespace around a string does not survive `trim`. */
  lemma {:induction false} PaddingIsTrimmed(padLeft: string, s: string, padRight: string)
    requires forall i :: 0 <= i < |padLeft| ==> IsWhitespace(padLeft[i])
    requires forall i :: 0 <= i < |padRight| ==> IsWhitespace(padRight[i])
    ensures Trim(padLeft + s + padRight) == Trim(s)
  {
    TrimStartDropsPadding(padLeft, s + padRight);
    assert padLeft + s + padRight == padLeft + (s + padRight);
    TrimEndDropsPadding(TrimStart(s + padRight), padRight, s);
  }

  lemma {:induction false} TrimStartDropsPadding(pad: string, s: string)
    requires forall i :: 0 <= i < |pad| ==> IsWhitespace(pad[i])
    ensures TrimStart(pad + s) == TrimStart(s)
    decreases |pad|
  {
    if |pad| > 0 {
      assert (pad + s)[0] == pad[0];
      assert (pad + s)[1..] == pad[1..] + s;
      TrimStartDropsPadding(pad[1..], s);
    } else {
      assert pad + s == s;
    }
  }

  lemma {:induction false} TrimEndDropsPaddingRaw(s: string, pad: string)
    requires forall i :: 0 <= i < |pad| ==> IsWhitespace(pad[i])
    ensures TrimEnd(s + pad) == TrimEnd(s)
    decreases |pad|
  {
    if |pad| > 0 {
      assert (s + pad)[|s + pad| - 1] == pad[|pad| - 1];
      assert (s + pad)[..|s + pad| - 1] == s + pad[..|pad| - 1];
      TrimEndDropsPaddingRaw(s, pad[..|pad| - 1]);
    } else {
      assert s + pad == s;
    }
  }

  lemma TrimEndDropsPadding(started: string, pad: string, t: string)
    requires forall i :: 0 <= i < |pad| ==> IsWhitespace(pad[i])
    requires started == TrimStart(t + pad)
    ensures TrimEnd(started) == Trim(t)
  {
    // TrimStart of `t + pad` is `TrimStart(t) + pad`, or a suffix of `pad`
    // when `t` is all whitespace.
    var ts := TrimStart(t);
    if ts == [] {
      assert forall i :: 0 <= i < |started| ==> IsWhitespace(started[i]) by {
        assert started == (t + pad)[|t + pad| - |started|..];
        forall i | 0 <= i < |started|
          ensures IsWhitespace(started[i])
        {
          var j := |t + pad| - |started| + i;
          if j < |t| { assert IsWhitespace(t[j]); } else { assert (t + pad)[j] == pad[j - |t|]; }
        }
      }
      AllWhitespaceTrimsToEmpty(started);
      TrimOfEmpty();
    } else {
      TrimStartOfConcat(t, pad);
      TrimEndDropsPaddingRaw(ts, pad);
    }
  }

  lemma {:induction false} TrimStartOfConcat(t: string, pad: string)
    requires TrimStart(t) != []
    ensures TrimStart(t + pad) == TrimStart(t) + pad
    decreases |t|
  {
    if |t| > 0 && IsWhitespace(t[0]) {
      assert (t + pad)[1..] == t[1..] + pad;
      TrimStartOfConcat(t[1..], pad);
    }
  }

  lemma {:induction false} AllWhitespaceTrimsToEmpty(s: string)
    requires forall i :: 0 <= i < |s| ==> IsWhitespace(s[i])
    ensures TrimEnd(s) == []
    decreases |s|
  {
    if |s| > 0 {
      AllWhitespaceTrimsToEmpty(s[..|s| - 1]);
    }
  }

  lemma TrimOfEmpty()
    ensures Trim([]) == []
  {
  }
}
