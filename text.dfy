/**
 * The string operations the Python service and the web page rely on:
 * decimal formatting (`str(int)`, `String(number)`), decimal parsing
 * (`int(str)`, `Number(str)` on an integer text), ASCII lower-casing,
 * whitespace stripping and prefix/suffix tests.
 */
module Text {
  import opened Wrappers

  predicate IsDigit(c: char) {
    '0' <= c <= '9'
  }

  predicate AllDigits(s: string) {
    forall i | 0 <= i < |s| :: IsDigit(s[i])
  }

  function DigitChar(d: nat): (c: char)
    requires d < 10
    ensures IsDigit(c)
  {
    ('0' as int + d) as char
  }

  function DigitValue(c: char): (d: nat)
    requires IsDigit(c)
    ensures d < 10
  {
    c as int - '0' as int
  }

  /** The decimal digits of `n`, most significant first. */
  function NatToString(n: nat): (s: string)
    ensures |s| > 0 && AllDigits(s)
    ensures |s| > 1 ==> s[0] != '0'
  {
    if n < 10 then [DigitChar(n)] else NatToString(n / 10) + [DigitChar(n % 10)]
  }

  /** `str(i)` in Python and `String(i)` in JavaScript, for an integer `i`. */
  function IntToString(i: int): (s: string)
    ensures |s| > 0
    ensures i < 0 <==> s[0] == '-'
  {
    if i < 0 then "-" + NatToString(-i) else NatToString(i)
  }

  /** The number a non-empty run of decimal digits denotes. */
  function DigitsValue(s: string): nat
    requires AllDigits(s)
  {
    if s == [] then 0 else DigitsValue(s[..|s| - 1]) * 10 + DigitValue(s[|s| - 1])
  }

  /** An optional minus sign followed by at least one digit; anything else is `None`. */
  function ParseSigned(s: string): Option<int> {
    if |s| > 0 && s[0] == '-' then
      if |s| > 1 && AllDigits(s[1..]) then var n: int := DigitsValue(s[1..]); Some(-n) else None
    else if |s| > 0 && AllDigits(s) then Some(DigitsValue(s))
    else None
  }

  /** Python's `int(s)` on a string: surrounding whitespace is ignored, one sign is allowed. */
  function ParseInt(s: string): Option<int> {
    var t := Strip(s);
    if |t| > 0 && t[0] == '+' then
      if |t| > 1 && AllDigits(t[1..]) then Some(DigitsValue(t[1..])) else None
    else ParseSigned(t)
  }

  /** The message of the `ValueError` that `int(s)` raises (the quoting stands for Python's `repr`). */
  function IntError(s: string): string {
    "invalid literal for int() with base 10: '" + s + "'"
  }

  lemma {:induction false} NatToStringRoundTrip(n: nat)
    ensures DigitsValue(NatToString(n)) == n
  {
    var s := NatToString(n);
    if n >= 10 {
      NatToStringRoundTrip(n / 10);
      assert s[..|s| - 1] == NatToString(n / 10);
    }
  }

  /** Formatting an integer and reading it back gives the same integer. */
  lemma IntToStringRoundTrip(i: int)
    ensures ParseSigned(IntToString(i)) == Some(i)
  {
    var s := IntToString(i);
    if i < 0 {
      assert s[1..] == NatToString(-i);
      NatToStringRoundTrip(-i);
    } else {
      NatToStringRoundTrip(i);
    }
  }

  /** Python's `int(str(i))` is `i`. */
  lemma PyIntRoundTrip(i: int)
    ensures ParseInt(IntToString(i)) == Some(i)
  {
    var s := IntToString(i);
    assert !IsSpace(s[0]) && !IsSpace(s[|s| - 1]);
    assert Strip(s) == s;
    IntToStringRoundTrip(i);
  }

  // ---------------------------------------------------------------- case

  /** ASCII lower-casing of one character. */
  function LowerChar(c: char): char {
    if 'A' <= c <= 'Z' then (c as int + 32) as char else c
  }

  /** `s.lower()` / `s.toLowerCase()`, restricted to ASCII letters. */
  function Lower(s: string): (r: string)
    ensures |r| == |s|
    ensures forall i | 0 <= i < |s| :: r[i] == LowerChar(s[i])
  {
    if s == [] then [] else [LowerChar(s[0])] + Lower(s[1..])
  }

  // ---------------------------------------------------------- whitespace

  /** The characters Python's `str.isspace()` accepts. */
  predicate IsSpace(c: char) {
    || '\t' <= c <= '\r'
    || '\U{1C}' <= c <= ' '
    || c == '\U{85}' || c == '\U{A0}' || c == '\U{1680}'
    || '\U{2000}' <= c <= '\U{200A}'
    || c == '\U{2028}' || c == '\U{2029}' || c == '\U{202F}' || c == '\U{205F}' || c == '\U{3000}'
  }

  predicate AllSpace(s: string) {
    forall i | 0 <= i < |s| :: IsSpace(s[i])
  }

  /** `s.lstrip()`: the longest suffix of `s` that does not start with whitespace. */
  function LStrip(s: string): (r: string)
    ensures |r| <= |s| && r == s[|s| - |r|..]
    ensures AllSpace(s[..|s| - |r|])
    ensures r == [] || !IsSpace(r[0])
  {
    if |s| > 0 && IsSpace(s[0]) then LStrip(s[1..]) else s
  }

  /** `s.rstrip()`: the longest prefix of `s` that does not end with whitespace. */
  function RStrip(s: string): (r: string)
    ensures |r| <= |s| && r == s[..|r|]
    ensures AllSpace(s[|r|..])
    ensures r == [] || !IsSpace(r[|r| - 1])
  {
    if |s| > 0 && IsSpace(s[|s| - 1]) then
      var r := RStrip(s[..|s| - 1]);
      assert s[|r|..] == s[..|s| - 1][|r|..] + [s[|s| - 1]];
      r
    else s
  }

  /** `s.strip()`. */
  function Strip(s: string): string {
    RStrip(LStrip(s))
  }

  /** `lstrip()` removes a whitespace prefix and nothing else. */
  lemma LStripPart(s: string) returns (pre: string)
    ensures AllSpace(pre) && s == pre + LStrip(s)
  {
    pre := s[..|s| - |LStrip(s)|];
  }

  /** `rstrip()` removes a whitespace suffix and nothing else. */
  lemma RStripPart(s: string) returns (post: string)
    ensures AllSpace(post) && s == RStrip(s) + post
  {
    post := s[|RStrip(s)|..];
  }

  lemma ConcatAssociative(a: string, b: string, c: string)
    ensures a + (b + c) == a + b + c
  {
  }

  /** `strip()` takes whitespace off both ends and nothing else. */
  lemma StripParts(s: string) returns (pre: string, w: string, post: string)
    ensures AllSpace(pre) && AllSpace(post) && w == Strip(s) && s == pre + w + post
  {
    pre := LStripPart(s);
    post := RStripPart(LStrip(s));
    w := Strip(s);
    ConcatAssociative(pre, w, post);
  }

  lemma {:induction false} LStripSkipsSpace(pre: string, s: string)
    requires AllSpace(pre)
    ensures LStrip(pre + s) == LStrip(s)
  {
    if pre == [] {
      assert pre + s == s;
    } else {
      assert (pre + s)[1..] == pre[1..] + s;
      LStripSkipsSpace(pre[1..], s);
    }
  }

  lemma {:induction false} RStripSkipsSpace(s: string, post: string)
    requires AllSpace(post)
    ensures RStrip(s + post) == RStrip(s)
  {
    if post == [] {
      assert s + post == s;
    } else {
      var p := post[..|post| - 1];
      assert (s + post)[..|s + post| - 1] == s + p;
      RStripSkipsSpace(s, p);
    }
  }

  lemma {:induction false} LStripKeepsTail(s: string, post: string)
    requires LStrip(s) != []
    ensures LStrip(s + post) == LStrip(s) + post
  {
    if IsSpace(s[0]) {
      assert (s + post)[1..] == s[1..] + post;
      LStripKeepsTail(s[1..], post);
    }
  }

  /** Whitespace around a value never changes what `strip()` returns. */
  lemma StripIgnoresPadding(pre: string, s: string, post: string)
    requires AllSpace(pre) && AllSpace(post)
    ensures Strip(pre + s + post) == Strip(s)
  {
    assert pre + s + post == pre + (s + post);
    LStripSkipsSpace(pre, s + post);
    if LStrip(s) == [] {
      AllSpaceStripsToEmpty(s, post);
    } else {
      LStripKeepsTail(s, post);
      RStripSkipsSpace(LStrip(s), post);
    }
  }

  lemma AllSpaceStripsToEmpty(s: string, post: string)
    requires LStrip(s) == [] && AllSpace(post)
    ensures LStrip(s + post) == []
  {
    assert AllSpace(s[..|s|]);
    assert s[..|s|] == s;
    var w := s + post;
    assert AllSpace(w) by {
      forall i | 0 <= i < |w| ensures IsSpace(w[i]) {
        if i < |s| { assert w[i] == s[i]; } else { assert w[i] == post[i - |s|]; }
      }
    }
    LStripSkipsSpace(w, []);
    assert w + [] == w;
  }

  lemma {:induction false} LowerLStrip(s: string)
    ensures Lower(LStrip(s)) == LStrip(Lower(s))
  {
    if |s| > 0 {
      assert Lower(s)[1..] == Lower(s[1..]);
      if IsSpace(s[0]) {
        LowerLStrip(s[1..]);
      }
    }
  }

  lemma {:induction false} LowerRStrip(s: string)
    ensures Lower(RStrip(s)) == RStrip(Lower(s))
  {
    if |s| > 0 {
      assert Lower(s)[..|s| - 1] == Lower(s[..|s| - 1]);
      if IsSpace(s[|s| - 1]) {
        LowerRStrip(s[..|s| - 1]);
      }
    }
  }

  /** Stripping and lower-casing commute: neither touches what the other acts on. */
  lemma LowerStripCommute(s: string)
    ensures Lower(Strip(s)) == Strip(Lower(s))
  {
    LowerRStrip(LStrip(s));
    LowerLStrip(s);
  }

  // ------------------------------------------------------ prefix, suffix

  predicate StartsWith(s: string, prefix: string) {
    |prefix| <= |s| && s[..|prefix|] == prefix
  }

  predicate EndsWith(s: string, suffix: string) {
    |suffix| <= |s| && s[|s| - |suffix|..] == suffix
  }
}
