/**
  How the reader's notation spells scalars: in any of its quotings or bare, as long as nothing on the
  line opens a comment. Every line that a text delivers can be spelled again.
 */
module YamlSpelling {
  import opened PyText
  import opened Yaml
  import opened YamlShape

  // ----- lines without a comment -----

  /** Nothing in `s` opens a comment, read in state `q`; `open` when a '#' at its start would. */
  predicate Free(s: string, q: Quoting, open: bool) {
    s == "" || (!(s[0] == '#' && q == Unquoted && open) && Free(s[1..], NextQuoting(q, s[0]), IsSpace(s[0])))
  }

  predicate CommentFree(s: string) {
    Free(s, Unquoted, true)
  }

  predicate OneLine(s: string) {
    forall i :: 0 <= i < |s| ==> !IsLineBreak(s[i])
  }

  /** A line that is read back as written, once its ends are visible. */
  predicate GoodLine(s: string) {
    OneLine(s) && CommentFree(s)
  }

  /** The scan of the source, from any position, finds no comment exactly when the rest is free of one. */
  lemma {:induction false} ScanIsFree(raw: string, i: nat, q: Quoting)
    requires i <= |raw|
    ensures CommentStart(raw, i, q) == |raw| <==> Free(raw[i..], q, i == 0 || IsSpace(raw[i - 1]))
    decreases |raw| - i
  {
    if i < |raw| {
      assert raw[i..][0] == raw[i] && raw[i..][1..] == raw[i + 1..];
      ScanIsFree(raw, i + 1, NextQuoting(q, raw[i]));
    }
  }

  lemma CommentFreeMeaning(raw: string)
    ensures CommentStart(raw, 0, Unquoted) == |raw| <==> CommentFree(raw)
  {
    ScanIsFree(raw, 0, Unquoted);
    assert raw[0..] == raw;
  }

  function QuotingAfter(s: string, q: Quoting): Quoting {
    if s == "" then q else QuotingAfter(s[1..], NextQuoting(q, s[0]))
  }

  predicate OpenAfter(s: string, open: bool) {
    if s == "" then open else IsSpace(s[|s| - 1])
  }

  lemma {:induction false} FreeConcat(a: string, b: string, q: Quoting, open: bool)
    ensures Free(a + b, q, open) <==> Free(a, q, open) && Free(b, QuotingAfter(a, q), OpenAfter(a, open))
  {
    if a == "" {
      assert a + b == b;
    } else {
      assert (a + b)[1..] == a[1..] + b;
      FreeConcat(a[1..], b, NextQuoting(q, a[0]), IsSpace(a[0]));
      assert a[1..] != "" ==> a[1..][|a[1..]| - 1] == a[|a| - 1];
    }
  }

  predicate AllSpace(s: string) {
    forall i :: 0 <= i < |s| ==> IsSpace(s[i])
  }

  /** White space toggles no quote. */
  lemma {:induction false} SpaceFree(s: string, q: Quoting, open: bool)
    requires AllSpace(s)
    ensures Free(s, q, open) && QuotingAfter(s, q) == q
  {
    if s != "" {
      SpaceFree(s[1..], q, IsSpace(s[0]));
    }
  }

  lemma FreeAnywhere(s: string, q: Quoting)
    ensures Free(s, q, true) ==> Free(s, q, false)
    ensures s != "" && s[0] != '#' ==> (Free(s, q, false) <==> Free(s, q, true))
  {
  }

  /** Without a '#' there is no comment, whatever the quoting. */
  lemma {:induction false} NoHashFree(s: string, q: Quoting, open: bool)
    requires forall i :: 0 <= i < |s| ==> s[i] != '#'
    ensures Free(s, q, open)
  {
    if s != "" {
      NoHashFree(s[1..], NextQuoting(q, s[0]), IsSpace(s[0]));
    }
  }

  /** Up to its comment a line has none. */
  lemma {:induction false} BeforeComment(raw: string, i: nat, q: Quoting)
    requires i <= |raw|
    ensures Free(raw[i..CommentStart(raw, i, q)], q, i == 0 || IsSpace(raw[i - 1]))
    decreases |raw| - i
  {
    var k := CommentStart(raw, i, q);
    if i < |raw| && !OpensComment(raw, i, q) {
      BeforeComment(raw, i + 1, NextQuoting(q, raw[i]));
      assert raw[i..k][1..] == raw[i + 1..k];
    }
  }

  // ----- what a scalar's text means -----

  predicate InQuotes(s: string) {
    |s| >= 2 && IsQuote(s[0]) && IsQuote(s[|s| - 1])
  }

  predicate IsWord(s: string) {
    AnyCase(s, "true") || AnyCase(s, "false") || AnyCase(s, "null") || AnyCase(s, "none")
  }

  predicate IsNumber(s: string) {
    s != "" && (AllDigits(s) || (s[0] == '-' && |s| > 1 && AllDigits(s[1..])))
  }

  /** A text that stands for itself. */
  predicate Bare(s: string) {
    Trimmed(s) && !InQuotes(s) && !IsWord(s) && !IsNumber(s)
  }

  lemma LowerDigits(s: string)
    ensures AllDigits(Lower(s)) <==> AllDigits(s)
    ensures AllDigits(s) ==> Lower(s) == s
    ensures s != "" ==> (Lower(s)[0] == '-' <==> s[0] == '-') && Lower(s)[1..] == Lower(s[1..])
  {
    if AllDigits(Lower(s)) {
      assert forall i :: 0 <= i < |s| ==> IsDigit(Lower(s)[i]);
    }
  }

  /** What every scalar text is read as, by its characters. */
  lemma ScalarMeaning(s: string)
    requires Trimmed(s)
    ensures InQuotes(s) ==> ParseScalar(s) == Str(s[1..|s| - 1])
    ensures AnyCase(s, "true") ==> ParseScalar(s) == Bool(true)
    ensures AnyCase(s, "false") ==> ParseScalar(s) == Bool(false)
    ensures AnyCase(s, "null") || AnyCase(s, "none") ==> ParseScalar(s) == Null
    ensures AllDigits(s) ==> ParseScalar(s) == Int(DigitsValue(s))
    ensures s[0] == '-' && |s| > 1 && AllDigits(s[1..]) ==> ParseScalar(s) == Int(-(DigitsValue(s[1..]) as int))
    ensures Bare(s) ==> ParseScalar(s) == Str(s)
  {
    ReadIs(s);
    KindsApart(s);
    hide ParseScalar, AnyCase, AllDigits, DigitsValue, IsQuote;
  }

  /** The cases of the reader, in its order. */
  lemma ReadIs(s: string)
    requires Trimmed(s)
    ensures ParseScalar(s)
         == if InQuotes(s) then Str(s[1..|s| - 1])
            else if AnyCase(s, "true") then Bool(true)
            else if AnyCase(s, "false") then Bool(false)
            else if AnyCase(s, "null") || AnyCase(s, "none") then Null
            else if AllDigits(s) then Int(DigitsValue(s))
            else if s[0] == '-' && |s| > 1 && AllDigits(s[1..]) then Int(-(DigitsValue(s[1..]) as int))
            else Str(s)
  {
    hide *;
    StripTrimmed(s);
    TrimmedShows(s);
    LowerWordIs(s);
    LowerDigits(s);
    LowerDigits(s[1..]);
    NotLower(s);
    ReadCases(s);
  }

  lemma TrimmedShows(s: string)
    requires Trimmed(s)
    ensures s != ""
  {
  }

  lemma NotLower(s: string)
    ensures AllDigits(s) ==> Lower(s) == s
    ensures |Lower(s)| == |s| && (s != "" ==> Lower(s[1..]) == Lower(s)[1..])
  {
    LowerDigits(s);
  }

  /** The same, on the stripped and lowered text. */
  lemma ReadCases(s: string)
    requires s != "" && Strip(s) == s && |Lower(s)| == |s|
    ensures InQuotes(s) ==> ParseScalar(s) == Str(s[1..|s| - 1])
    ensures !InQuotes(s) ==>
              ParseScalar(s)
              == if Lower(s) == "true" then Bool(true)
                 else if Lower(s) == "false" then Bool(false)
                 else if Lower(s) == "null" || Lower(s) == "none" then Null
                 else if AllDigits(Lower(s)) then Int(DigitsValue(Lower(s)))
                 else if Lower(s)[0] == '-' && |s| > 1 && AllDigits(Lower(s)[1..])
                 then Int(-(DigitsValue(Lower(s)[1..]) as int))
                 else Str(s)
  {
    hide Lower, Strip, IsQuote, AllDigits, DigitsValue;
  }

  lemma LowerWordIs(s: string)
    ensures (Lower(s) == "true" <==> AnyCase(s, "true")) && (Lower(s) == "false" <==> AnyCase(s, "false"))
    ensures (Lower(s) == "null" <==> AnyCase(s, "null")) && (Lower(s) == "none" <==> AnyCase(s, "none"))
  {
    LowerIs(s, "true");
    LowerIs(s, "false");
    LowerIs(s, "null");
    LowerIs(s, "none");
    hide Lower, AnyCase;
  }

  lemma KindsApart(s: string)
    requires s != ""
    ensures IsWord(s) ==> !InQuotes(s) && !IsNumber(s)
    ensures IsNumber(s) ==> !InQuotes(s)
    ensures AnyCase(s, "true") ==> !AnyCase(s, "false") && !AnyCase(s, "null") && !AnyCase(s, "none")
    ensures AnyCase(s, "false") ==> !AnyCase(s, "null") && !AnyCase(s, "none")
  {
  }

  /** White space around it does not matter, and white space alone is the empty string. */
  lemma ScalarPadding(pad: string, s: string, end: string)
    requires AllSpace(pad) && AllSpace(end)
    ensures Trimmed(s) ==> ParseScalar(pad + s + end) == ParseScalar(s)
    ensures ParseScalar(pad) == Str("")
  {
    StripMeaning(pad);
    if Trimmed(s) {
      StripAround(pad, s, end);
      StripTrimmed(s);
    }
  }

  lemma {:induction false} StripAround(pad: string, s: string, end: string)
    requires Trimmed(s) && AllSpace(pad) && AllSpace(end)
    ensures Strip(pad + s + end) == s
  {
    if pad != "" {
      assert (pad + s + end)[1..] == pad[1..] + s + end;
      StripAround(pad[1..], s, end);
    } else {
      assert pad + s + end == s + end;
      assert LStrip(s + end) == s + end;
      RStripEnd(s, end);
    }
  }

  lemma {:induction false} RStripEnd(s: string, end: string)
    requires Trimmed(s) && AllSpace(end)
    ensures RStrip(s + end) == s
  {
    if end == "" {
      assert s + end == s;
    } else {
      assert (s + end)[..|s + end| - 1] == s + end[..|end| - 1];
      RStripEnd(s, end[..|end| - 1]);
    }
  }

  // ----- spelling a scalar -----

  function ShowScalar(sc: Scalar): string {
    match sc
    case Str(s) => Quoted('"', s, '"')
    case Int(n) => if n < 0 then "-" + DigitsOf(-n) else DigitsOf(n)
    case Bool(b) => if b then "true" else "false"
    case Null => "null"
  }

  function Quoted(left: char, s: string, right: char): string {
    [left] + s + [right]
  }

  /** All the ways to write a string, the plain double quotes first; one way for the others. */
  function Spellings(sc: Scalar): (rs: seq<string>)
    ensures rs != [] && rs[0] == ShowScalar(sc)
  {
    match sc
    case Str(s) =>
      [Quoted('"', s, '"'), Quoted('\'', s, '\''), Quoted('"', s, '\''), Quoted('\'', s, '"')]
      + (if Bare(s) then [s] else [])
    case _ => [ShowScalar(sc)]
  }

  /** A scalar's text after `head`; no blank goes between a ':' and a '#', where it would open a comment. */
  function Attach(head: string, shown: string): string {
    if head != "" && head[|head| - 1] == ':' && shown != "" && shown[0] == '#' then head + shown
    else head + " " + shown
  }

  function FirstFree(head: string, rs: seq<string>): string
    requires rs != []
  {
    if |rs| == 1 || CommentFree(Attach(head, rs[0])) then rs[0] else FirstFree(head, rs[1..])
  }

  /** The first spelling without a comment after `head`, or the last one. */
  function Spelled(head: string, sc: Scalar): string {
    FirstFree(head, Spellings(sc))
  }

  function EntryText(key: string, sc: Scalar): string {
    Attach(key + ":", Spelled(key + ":", sc))
  }

  function ItemText(sc: Scalar): string {
    Attach("-", Spelled("-", sc))
  }

  lemma {:induction false} FirstFreeMeaning(head: string, rs: seq<string>)
    requires rs != []
    ensures FirstFree(head, rs) in rs
    ensures (exists r :: r in rs && CommentFree(Attach(head, r))) ==> CommentFree(Attach(head, FirstFree(head, rs)))
  {
    if |rs| > 1 && !CommentFree(Attach(head, rs[0])) {
      FirstFreeMeaning(head, rs[1..]);
      assert rs == [rs[0]] + rs[1..];
    }
  }

  /** `r` is read as `sc`. */
  ghost predicate Spells(r: string, sc: Scalar) {
    Trimmed(r) && ParseScalar(r) == sc && (':' in r <==> sc.Str? && ':' in sc.s)
  }

  /** However a scalar is spelled, it is read back as itself, with its type. */
  lemma SpellingsRoundTrip(sc: Scalar, r: string)
    requires r in Spellings(sc)
    ensures Spells(r, sc)
  {
    if sc.Str? {
      if r == sc.s && Bare(sc.s) {
        ScalarMeaning(sc.s);
      } else {
        var left, right := r[0], r[|r| - 1];
        assert r == Quoted(left, sc.s, right);
        QuotedRoundTrip(left, sc.s, right);
      }
    } else {
      ShownRoundTrip(sc);
    }
  }

  lemma QuotedRoundTrip(left: char, s: string, right: char)
    requires IsQuote(left) && IsQuote(right)
    ensures Spells(Quoted(left, s, right), Str(s))
  {
    var r := Quoted(left, s, right);
    assert r[1..|r| - 1] == s;
    StripTrimmed(r);
    assert forall i :: 0 <= i < |s| ==> r[i + 1] == s[i];
  }

  lemma ShownRoundTrip(sc: Scalar)
    requires !sc.Str?
    ensures Spells(ShowScalar(sc), sc)
  {
    var shown := ShowScalar(sc);
    match sc
    case Int(n) =>
      NumberRoundTrip(n);
    case Bool(b) => WordRoundTrip(sc);
    case Null => WordRoundTrip(sc);
  }

  lemma WordRoundTrip(sc: Scalar)
    requires sc.Bool? || sc.Null?
    ensures Spells(ShowScalar(sc), sc)
  {
    StripTrimmed(ShowScalar(sc));
    LowerWords();
    hide Lower, Strip;
  }

  lemma LowerWords()
    ensures Lower("true") == "true" && Lower("false") == "false" && Lower("null") == "null"
  {
  }

  lemma NumberRoundTrip(n: int)
    ensures Trimmed(ShowScalar(Int(n))) && ':' !in ShowScalar(Int(n))
    ensures ParseScalar(ShowScalar(Int(n))) == Int(n)
  {
    var digits := DigitsOf(if n < 0 then -n else n);
    DigitsRoundTrip(if n < 0 then -n else n);
    var shown := ShowScalar(Int(n));
    assert n < 0 ==> shown[0] == '-' && shown[1..] == digits;
    DigitsTrimmed(digits);
    ScalarMeaning(shown);
    hide ParseScalar, DigitsOf;
  }

  lemma DigitsTrimmed(s: string)
    requires s != "" && AllDigits(s)
    ensures Trimmed(s) && Trimmed("-" + s) && ':' !in s && !IsQuote(s[0])
  {
  }

  lemma SpelledRoundTrip(head: string, sc: Scalar)
    ensures Spells(Spelled(head, sc), sc)
  {
    FirstFreeMeaning(head, Spellings(sc));
    SpellingsRoundTrip(sc, Spelled(head, sc));
  }

  /** There is no other way to write a string. */
  lemma SpellingsAll(raw: string)
    requires Trimmed(raw) && ParseScalar(raw).Str?
    ensures raw in Spellings(ParseScalar(raw))
  {
    ScalarMeaning(raw);
    hide ParseScalar;
    var s := ParseScalar(raw).s;
    if InQuotes(raw) {
      assert raw == Quoted(raw[0], s, raw[|raw| - 1]);
    } else {
      assert Bare(raw) && s == raw;
    }
  }

  // ----- what was read can be spelled -----

  lemma PlainText(sc: Scalar)
    requires !sc.Str?
    ensures var r := ShowScalar(sc); OneLine(r) && forall i :: 0 <= i < |r| ==> r[i] != '#'
  {
  }

  /** A scalar that was read after `head`, in any spelling, can be spelled there again. */
  lemma SpelledAgain(head: string, raw: string)
    requires head != "" && Trimmed(raw) && GoodLine(head) && OneLine(raw)
    requires Free(raw, QuotingAfter(head, Unquoted), head[|head| - 1] != ':')
    ensures GoodLine(Attach(head, Spelled(head, ParseScalar(raw))))
  {
    var sc := ParseScalar(raw);
    FirstFreeMeaning(head, Spellings(sc));
    var r := if sc.Str? then raw else ShowScalar(sc);
    if sc.Str? {
      SpellingsAll(raw);
      AttachFree(head, raw);
    } else {
      PlainText(sc);
      NoHashFree(r, QuotingAfter(head, Unquoted), true);
      FreeAnywhere(r, QuotingAfter(head, Unquoted));
      AttachFree(head, r);
    }
    assert r in Spellings(sc) && CommentFree(Attach(head, r));
    SpellingOneLine(sc, raw, Spelled(head, sc));
    AttachOneLine(head, Spelled(head, sc));
  }

  lemma AttachFree(head: string, r: string)
    requires head != "" && CommentFree(head) && r != ""
    requires Free(r, QuotingAfter(head, Unquoted), head[|head| - 1] != ':')
    ensures CommentFree(Attach(head, r))
  {
    var q := QuotingAfter(head, Unquoted);
    FreeConcat(head, r, Unquoted, true);
    FreeAnywhere(r, q);
    assert head + " " + r == head + (" " + r);
    FreeConcat(head, " " + r, Unquoted, true);
    assert (" " + r)[1..] == r;
  }

  lemma AttachOneLine(head: string, r: string)
    requires OneLine(head) && OneLine(r)
    ensures OneLine(Attach(head, r))
  {
  }

  lemma SpellingOneLine(sc: Scalar, raw: string, r: string)
    requires OneLine(raw) && Trimmed(raw) && ParseScalar(raw) == sc && r in Spellings(sc)
    ensures OneLine(r)
  {
    if sc.Str? {
      SpellingsAll(raw);
      hide ParseScalar;
      hide IsLineBreak;
      StringSpelling(sc.s, raw);
      StringSpelling(sc.s, r);
      assert raw != sc.s ==> forall i :: 0 <= i < |sc.s| ==> sc.s[i] == raw[i + 1];
      assert r != sc.s ==> forall i :: 0 < i < |r| - 1 ==> r[i] == sc.s[i - 1];
      QuotesOneLine();
    } else {
      PlainText(sc);
    }
  }

  lemma StringSpelling(s: string, r: string)
    requires r in Spellings(Str(s))
    ensures r == s || (|r| == |s| + 2 && IsQuote(r[0]) && IsQuote(r[|r| - 1]) && r == Quoted(r[0], s, r[|r| - 1]))
  {
    hide ParseScalar;
  }

  lemma QuotesOneLine()
    ensures !IsLineBreak('"') && !IsLineBreak('\'') && !IsLineBreak(':')
  {
  }

  /** A line with a pair on it: its key and its scalar can be spelled again, in that order. */
  lemma PairSpelledAgain(content: string)
    requires Trimmed(content) && GoodLine(content) && ':' in content
    ensures var (key, raw) := SplitPair(content);
            && GoodLine(key + ":")
            && (raw != "" ==> GoodLine(EntryText(key, ParseScalar(raw))))
  {
    hide *;
    var (key, raw) := SplitPair(content);
    var gap, space := PairParts(content);
    GoodParts(content);
    FreeConcat(key, gap + ":" + space + raw, Unquoted, true);
    var q := QuotingAfter(key, Unquoted);
    ThroughGap(gap, space, raw, q, OpenAfter(key, true));
    FreeConcat(key, ":", Unquoted, true);
    AfterColon(key);
    IsCommentFree(key + ":");
    PartOneLine(content, key, gap + ":" + space, raw);
    if raw != "" {
      SpelledAgain(key + ":", raw);
      EntryTextIs(key, ParseScalar(raw));
    }
  }

  lemma IsCommentFree(s: string)
    ensures CommentFree(s) <==> Free(s, Unquoted, true)
  {
  }

  lemma EntryTextIs(key: string, sc: Scalar)
    ensures EntryText(key, sc) == Attach(key + ":", Spelled(key + ":", sc))
  {
  }

  /** The key starts where the line does, and the value ends where it does. */
  lemma PairParts(content: string) returns (gap: string, space: string)
    requires Trimmed(content) && ':' in content
    ensures var (key, raw) := SplitPair(content);
            && content == key + (gap + ":" + space + raw)
            && AllSpace(gap) && AllSpace(space)
            && (raw != "" ==> Trimmed(raw))
  {
    hide *;
    var k := FirstColon(content);
    var key, raw := Strip(content[..k]), Strip(content[k + 1..]);
    PairIs(content);
    gap := KeyPart(content, k);
    space := ValuePart(content, k);
    assert content == content[..k] + [content[k]] + content[k + 1..];
    assert content == (key + gap) + ":" + (space + raw);
    Regroup(key, gap, space, raw);
  }

  lemma Regroup(key: string, gap: string, space: string, raw: string)
    ensures (key + gap) + ":" + (space + raw) == key + (gap + ":" + space + raw)
  {
  }

  lemma PairIs(content: string)
    requires ':' in content
    ensures var k := FirstColon(content); SplitPair(content) == (Strip(content[..k]), Strip(content[k + 1..]))
  {
    hide Strip;
    hide FirstColon;
  }

  lemma PartOneLine(content: string, key: string, middle: string, raw: string)
    requires GoodLine(content) && content == key + (middle + raw)
    requires CommentFree(key + ":")
    ensures GoodLine(key + ":") && OneLine(raw)
  {
    hide CommentFree;
    hide IsLineBreak;
    assert !IsLineBreak(':') by {
      QuotesOneLine();
    }
    assert forall i :: 0 <= i < |key| ==> key[i] == content[i];
    assert forall i :: 0 <= i < |raw| ==> raw[i] == content[|key| + |middle| + i];
  }

  lemma AfterColon(key: string)
    ensures QuotingAfter(key + ":", Unquoted) == QuotingAfter(key, Unquoted)
  {
    QuotingConcat(key, ":", Unquoted);
    assert QuotingAfter(":", QuotingAfter(key, Unquoted)) == QuotingAfter("", QuotingAfter(key, Unquoted));
  }

  lemma {:induction false} QuotingConcat(a: string, b: string, q: Quoting)
    ensures QuotingAfter(a + b, q) == QuotingAfter(b, QuotingAfter(a, q))
  {
    if a == "" {
      assert a + b == b;
    } else {
      assert (a + b)[1..] == a[1..] + b;
      QuotingConcat(a[1..], b, NextQuoting(q, a[0]));
    }
  }

  /** The key starts where the line does, with white space after it. */
  lemma KeyPart(content: string, k: nat) returns (gap: string)
    requires Trimmed(content) && k < |content|
    ensures content[..k] == Strip(content[..k]) + gap && AllSpace(gap)
  {
    var before := content[..k];
    if k > 0 {
      assert !IsSpace(before[0]);
    }
    LStripMeaning(before);
    assert LStrip(before) == before;
    RStripMeaning(before);
    gap := before[|Strip(before)|..];
  }

  /** The value ends where the line does, with white space before it. */
  lemma ValuePart(content: string, k: nat) returns (space: string)
    requires Trimmed(content) && k < |content|
    ensures content[k + 1..] == space + Strip(content[k + 1..]) && AllSpace(space)
    ensures Strip(content[k + 1..]) != "" ==> Trimmed(Strip(content[k + 1..]))
  {
    var after := content[k + 1..];
    StripMeaning(after);
    LStripMeaning(after);
    var t := LStrip(after);
    RStripMeaning(t);
    if t != "" {
      assert t[|t| - 1] == content[|content| - 1];
    }
    assert Strip(after) == t;
    space := after[..|after| - |t|];
  }

  /** What stands between key and value is white space around the colon. */
  lemma ThroughGap(gap: string, space: string, raw: string, q: Quoting, open: bool)
    requires AllSpace(gap) && AllSpace(space)
    requires Free(gap + ":" + space + raw, q, open)
    ensures Free(raw, q, false) && Free(":", q, open)
  {
    assert gap + ":" + space + raw == gap + (":" + (space + raw));
    FreeConcat(gap, ":" + (space + raw), q, open);
    SpaceFree(gap, q, open);
    assert (":" + (space + raw))[1..] == space + raw;
    FreeConcat(space, raw, q, false);
    SpaceFree(space, q, false);
    FreeAnywhere(raw, q);
  }

  /** A dash line: what follows the dash stands alone as well as after "- ". */
  lemma AfterDash(rest: string)
    ensures CommentFree("- " + rest) <==> CommentFree(rest)
    ensures CommentFree(rest) <==> Free(rest, Unquoted, true)
  {
    assert ("- " + rest)[1..] == " " + rest && (" " + rest)[1..] == rest;
    assert Free("- " + rest, Unquoted, true) <==> Free(" " + rest, Unquoted, false);
    assert Free(" " + rest, Unquoted, false) <==> Free(rest, Unquoted, true);
  }

  lemma PayloadSpelledAgain(content: string)
    requires Trimmed(content) && GoodLine(content) && IsItem(content)
    ensures var payload := Strip(content[2..]);
            && Trimmed(payload) && GoodLine(payload)
            && (':' !in payload ==> GoodLine(ItemText(ParseScalar(payload))))
  {
    var payload := Strip(content[2..]);
    hide *;
    PayloadNotEmpty(content);
    ItemStart(content);
    var space := ValuePart(content, 1);
    assert content == "- " + (space + payload);
    PayloadOneLine(content, "- " + space, payload);
    AfterDash(space + payload);
    GoodParts(content);
    FreeConcat(space, payload, Unquoted, true);
    SpaceFree(space, Unquoted, true);
    AfterSpace(space);
    GoodFrom(payload);
    Dash();
    if ':' !in payload {
      SpelledAgain("-", payload);
      ItemTextIs(ParseScalar(payload));
    }
  }

  lemma ItemTextIs(sc: Scalar)
    ensures ItemText(sc) == Attach("-", Spelled("-", sc))
  {
  }

  lemma ItemStart(content: string)
    requires IsItem(content)
    ensures content == "- " + content[2..] && |content| >= 2
  {
  }

  lemma PayloadOneLine(content: string, before: string, payload: string)
    requires GoodLine(content) && content == before + payload
    ensures OneLine(payload)
  {
    hide CommentFree;
    assert forall i :: 0 <= i < |payload| ==> payload[i] == content[|before| + i];
  }

  lemma GoodParts(s: string)
    requires GoodLine(s)
    ensures Free(s, Unquoted, true) && CommentFree(s)
  {
  }

  lemma GoodFrom(s: string)
    requires OneLine(s) && Free(s, Unquoted, true)
    ensures GoodLine(s)
  {
  }

  lemma AfterSpace(space: string)
    requires AllSpace(space)
    ensures OpenAfter(space, true)
  {
  }

  lemma Dash()
    ensures GoodLine("-") && QuotingAfter("-", Unquoted) == Unquoted
  {
    assert "-"[1..] == "";
    assert QuotingAfter("-", Unquoted) == QuotingAfter("", Unquoted);
  }
}
