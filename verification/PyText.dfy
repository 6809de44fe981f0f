/**
  The string operations of Python that the security wrapper's modules use:
  `str.strip`, `str.splitlines`, ASCII lower-casing, and decimal integers.
 */
module PyText {

  /** The characters for which `str.isspace` holds. */
  predicate IsSpace(c: char) {
    || '\t' <= c <= '\r'
    || '\U{1C}' <= c <= ' '
    || c == '\U{85}' || c == '\U{A0}' || c == '\U{1680}'
    || '\U{2000}' <= c <= '\U{200A}'
    || c == '\U{2028}' || c == '\U{2029}' || c == '\U{202F}' || c == '\U{205F}' || c == '\U{3000}'
  }

  /** The line boundaries that `str.splitlines` recognises. */
  predicate IsLineBreak(c: char) {
    || '\n' <= c <= '\r'
    || '\U{1C}' <= c <= '\U{1E}'
    || c == '\U{85}' || c == '\U{2028}' || c == '\U{2029}'
  }

  /** The white space, listed. */
  lemma SpaceMeaning(c: char)
    ensures IsSpace(c) <==>
              c in ['\t', '\n', '\U{B}', '\U{C}', '\r', '\U{1C}', '\U{1D}', '\U{1E}', '\U{1F}', ' ', '\U{85}', '\U{A0}',
                    '\U{1680}', '\U{2000}', '\U{2001}', '\U{2002}', '\U{2003}', '\U{2004}', '\U{2005}', '\U{2006}',
                    '\U{2007}', '\U{2008}', '\U{2009}', '\U{200A}', '\U{2028}', '\U{2029}', '\U{202F}', '\U{205F}',
                    '\U{3000}']
  {
  }

  /** And the line breaks. */
  lemma BreakMeaning(c: char)
    ensures IsLineBreak(c) <==>
              c in ['\n', '\U{B}', '\U{C}', '\r', '\U{1C}', '\U{1D}', '\U{1E}', '\U{85}', '\U{2028}', '\U{2029}']
  {
  }

  predicate IsDigit(c: char) {
    '0' <= c <= '9'
  }

  function LStrip(s: string): (r: string)
    ensures |r| <= |s|
  {
    if s == "" || !IsSpace(s[0]) then s else LStrip(s[1..])
  }

  function RStrip(s: string): (r: string)
    ensures |r| <= |s|
  {
    if s == "" || !IsSpace(s[|s| - 1]) then s else RStrip(s[..|s| - 1])
  }

  function Strip(s: string): string {
    RStrip(LStrip(s))
  }

  /** A string that begins and ends with a visible character. */
  predicate Trimmed(s: string) {
    s != "" && !IsSpace(s[0]) && !IsSpace(s[|s| - 1])
  }

  lemma {:induction false} LStripMeaning(s: string)
    ensures LStrip(s) == s[|s| - |LStrip(s)|..]
    ensures LStrip(s) == "" || !IsSpace(LStrip(s)[0])
    ensures forall i :: 0 <= i < |s| - |LStrip(s)| ==> IsSpace(s[i])
  {
    if s != "" && IsSpace(s[0]) {
      LStripMeaning(s[1..]);
      forall i | 1 <= i < |s| - |LStrip(s)|
        ensures IsSpace(s[i])
      {
        assert s[i] == s[1..][i - 1];
      }
    }
  }

  lemma {:induction false} RStripMeaning(s: string)
    ensures RStrip(s) == s[..|RStrip(s)|]
    ensures RStrip(s) == "" || !IsSpace(RStrip(s)[|RStrip(s)| - 1])
    ensures forall i :: |RStrip(s)| <= i < |s| ==> IsSpace(s[i])
  {
    if s != "" && IsSpace(s[|s| - 1]) {
      RStripMeaning(s[..|s| - 1]);
      forall i | |RStrip(s)| <= i < |s| - 1
        ensures IsSpace(s[i])
      {
        assert s[i] == s[..|s| - 1][i];
      }
    }
  }

  /** Stripping yields the empty string exactly on blank input, and a trimmed string otherwise. */
  lemma StripMeaning(s: string)
    ensures Strip(s) == "" <==> forall i :: 0 <= i < |s| ==> IsSpace(s[i])
    ensures Strip(s) != "" ==> Trimmed(Strip(s))
    ensures forall c :: c in Strip(s) ==> c in s
  {
    LStripMeaning(s);
    var t := LStrip(s);
    RStripMeaning(t);
    assert forall i :: 0 <= i < |t| ==> t[i] == s[|s| - |t| + i];
    if t != "" {
      assert !IsSpace(t[0]) && t[0] == s[|s| - |t|];
      assert Strip(s) != "";
    }
  }

  lemma StripTrimmed(s: string)
    requires Trimmed(s)
    ensures LStrip(s) == s && RStrip(s) == s && Strip(s) == s
  {
  }

  lemma {:induction false} StripPadding(pad: string, s: string)
    requires Trimmed(s)
    requires forall i :: 0 <= i < |pad| ==> IsSpace(pad[i])
    ensures Strip(pad + s) == s
  {
    if pad == "" {
      assert pad + s == s;
    } else {
      assert (pad + s)[1..] == pad[1..] + s;
      StripPadding(pad[1..], s);
    }
  }

  function LowerChar(c: char): char {
    if 'A' <= c <= 'Z' then c - 'A' + 'a' else c
  }

  function Lower(s: string): (r: string)
    ensures |r| == |s|
    ensures forall i :: 0 <= i < |s| ==> r[i] == LowerChar(s[i])
  {
    seq(|s|, i requires 0 <= i < |s| => LowerChar(s[i]))
  }

  /** `s` is the word, each letter in either case. */
  predicate AnyCase(s: string, word: string) {
    |s| == |word| && forall i :: 0 <= i < |s| ==> s[i] == word[i] || ('A' <= s[i] <= 'Z' && s[i] - 'A' + 'a' == word[i])
  }

  lemma LowerIs(s: string, word: string)
    requires forall i :: 0 <= i < |word| ==> 'a' <= word[i] <= 'z'
    ensures Lower(s) == word <==> AnyCase(s, word)
  {
    if AnyCase(s, word) {
      assert forall i :: 0 <= i < |s| ==> Lower(s)[i] == word[i];
    }
    if Lower(s) == word {
      assert forall i :: 0 <= i < |s| ==> LowerChar(s[i]) == word[i];
    }
  }

  /** Index of the first line break in `s`, or `|s|`. */
  function FirstBreak(s: string): (k: nat)
    ensures k <= |s|
    ensures k < |s| ==> IsLineBreak(s[k])
    ensures forall i :: 0 <= i < k ==> !IsLineBreak(s[i])
  {
    if s == "" || IsLineBreak(s[0]) then 0 else 1 + FirstBreak(s[1..])
  }

  /** `str.splitlines()`: a trailing break opens no further line, and CR LF is one break. */
  function SplitLines(s: string): seq<string> {
    if s == "" then []
    else
      var k := FirstBreak(s);
      if k == |s| then [s]
      else if s[k] == '\r' && k + 1 < |s| && s[k + 1] == '\n' then [s[..k]] + SplitLines(s[k + 2..])
      else [s[..k]] + SplitLines(s[k + 1..])
  }

  /** Any line break ends a line, and CR LF ends one; without a break there is one line, of nothing none. */
  lemma SplitLinesMeaning(line: string, c: char, rest: string)
    requires (forall i :: 0 <= i < |line| ==> !IsLineBreak(line[i])) && IsLineBreak(c)
    ensures !(c == '\r' && rest != "" && rest[0] == '\n') ==> SplitLines(line + [c] + rest) == [line] + SplitLines(rest)
    ensures c == '\r' && rest != "" && rest[0] == '\n' ==>
              SplitLines(line + [c] + rest) == [line] + SplitLines(rest[1..])
    ensures SplitLines(line) == if line == "" then [] else [line]
  {
    var s := line + [c] + rest;
    var k := FirstBreak(s);
    assert s[|line|] == c;
    assert forall i :: 0 <= i < |line| ==> s[i] == line[i];
    assert k == |line|;
    assert s[..k] == line && s[k + 1..] == rest;
    assert rest != "" ==> s[k + 1] == rest[0] && s[k + 2..] == rest[1..];
    assert FirstBreak(line) == |line|;
  }

  predicate AllDigits(s: string) {
    forall i :: 0 <= i < |s| ==> IsDigit(s[i])
  }

  /** The value of a string of ASCII digits, as `int` reads it (leading zeros allowed). */
  function DigitsValue(s: string): nat
    requires AllDigits(s)
  {
    if s == "" then 0 else 10 * DigitsValue(s[..|s| - 1]) + (s[|s| - 1] as int - '0' as int)
  }

  function Power(n: nat): nat {
    if n == 0 then 1 else 10 * Power(n - 1)
  }

  /** Each digit counts ten times the digit after it. */
  lemma {:induction false} DigitsPlaces(a: string, b: string)
    requires AllDigits(a) && AllDigits(b)
    ensures AllDigits(a + b) && DigitsValue(a + b) == DigitsValue(a) * Power(|b|) + DigitsValue(b)
  {
    if b == "" {
      assert a + b == a;
    } else {
      var c, last := b[..|b| - 1], b[|b| - 1];
      DigitsPlaces(a, c);
      assert b == c + [last] && a + b == a + c + [last];
      hide *;
      DigitsMore(a + c, last);
      DigitsMore(c, last);
      PowerMore(|c|);
      TenTimes(DigitsValue(a), Power(|c|), Power(|b|));
    }
  }

  lemma DigitsMore(s: string, c: char)
    requires AllDigits(s) && AllDigits(s + [c])
    ensures '0' <= c && DigitsValue(s + [c]) == 10 * DigitsValue(s) + (c as int - '0' as int)
  {
    assert (s + [c])[..|s|] == s && (s + [c])[|s|] == c;
  }

  lemma PowerMore(n: nat)
    ensures Power(n + 1) == 10 * Power(n)
  {
  }

  lemma TenTimes(a: nat, b: nat, c: nat)
    requires c == 10 * b
    ensures a * c == 10 * (a * b)
  {
  }

  lemma DigitsSingle(c: char)
    requires IsDigit(c)
    ensures DigitsValue([c]) == c as int - '0' as int
  {
    assert [c][..0] == "";
  }

  function DigitsOf(n: nat): (s: string)
    ensures s != "" && AllDigits(s)
  {
    if n < 10 then ['0' + n as char] else DigitsOf(n / 10) + ['0' + (n % 10) as char]
  }

  lemma {:induction false} DigitsRoundTrip(n: nat)
    ensures DigitsValue(DigitsOf(n)) == n
  {
    if n >= 10 {
      DigitsRoundTrip(n / 10);
      var s := DigitsOf(n);
      assert s[..|s| - 1] == DigitsOf(n / 10);
    } else {
      assert DigitsOf(n)[..0] == "";
    }
  }
}
