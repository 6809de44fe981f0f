/**
  The text helpers of `src/text-utils.mjs` that the chunker, the prompt governor and the checkpoint store
  share: `String.prototype.trim` and `normalizeText`, with the exact condition for normalising twice to be
  the same as normalising once.
 */
module JsText {

  /** The characters that `trim` removes. */
  predicate IsSpace(c: char) {
    || '\t' <= c <= '\r' || c == ' ' || c == '\U{A0}' || c == '\U{1680}'
    || '\U{2000}' <= c <= '\U{200A}'
    || c == '\U{2028}' || c == '\U{2029}' || c == '\U{202F}' || c == '\U{205F}' || c == '\U{3000}'
    || c == '\U{FEFF}'
  }

  predicate IsZeroWidth(c: char) {
    '\U{200B}' <= c <= '\U{200D}' || c == '\U{FEFF}'
  }

  /** `[ \t]`. */
  predicate IsBlank(c: char) {
    c == ' ' || c == '\t'
  }

  /** The same, listed. */
  lemma SpaceMeaning(c: char)
    ensures IsSpace(c) <==>
              c in ['\t', '\n', '\U{B}', '\U{C}', '\r', ' ', '\U{A0}', '\U{1680}', '\U{2000}', '\U{2001}', '\U{2002}',
                    '\U{2003}', '\U{2004}', '\U{2005}', '\U{2006}', '\U{2007}', '\U{2008}', '\U{2009}', '\U{200A}',
                    '\U{2028}', '\U{2029}', '\U{202F}', '\U{205F}', '\U{3000}', '\U{FEFF}']
    ensures IsZeroWidth(c) <==> c in ['\U{200B}', '\U{200C}', '\U{200D}', '\U{FEFF}']
    ensures IsBlank(c) <==> c in " \t"
  {
  }

  function TrimStart(s: string): (r: string)
    ensures |r| <= |s|
  {
    if s != "" && IsSpace(s[0]) then TrimStart(s[1..]) else s
  }

  function TrimEnd(s: string): (r: string)
    ensures |r| <= |s|
  {
    if s != "" && IsSpace(s[|s| - 1]) then TrimEnd(s[..|s| - 1]) else s
  }

  function Trim(s: string): (r: string)
    ensures |r| <= |s|
  {
    TrimEnd(TrimStart(s))
  }

  /** Nothing left for `trim` to remove. */
  predicate IsTrimmed(s: string) {
    s == "" || (!IsSpace(s[0]) && !IsSpace(s[|s| - 1]))
  }

  /** `trim` takes blank ends off and nothing else. */
  lemma TrimMeaning(s: string)
    ensures IsTrimmed(Trim(s))
    ensures exists i, j :: 0 <= i <= j <= |s| && Trim(s) == s[i..j]
    ensures Trim(s) == "" <==> forall c :: c in s ==> IsSpace(c)
    ensures IsTrimmed(s) ==> Trim(s) == s
  {
    TrimStartMeaning(s);
    var t := TrimStart(s);
    TrimEndMeaning(t);
    var i := |s| - |t|;
    assert Trim(s) == t[..|Trim(s)|] == s[i..i + |Trim(s)|];
    assert t != "" ==> !IsSpace(t[0]);
    if Trim(s) != "" {
      assert Trim(s)[0] == t[0] == s[i];
      assert s[i] in s;
    } else {
      assert t == "";
    }
  }

  lemma {:induction false} TrimStartMeaning(s: string)
    ensures TrimStart(s) == s[|s| - |TrimStart(s)|..]
    ensures TrimStart(s) != "" ==> !IsSpace(TrimStart(s)[0])
    ensures forall k :: 0 <= k < |s| - |TrimStart(s)| ==> IsSpace(s[k])
  {
    if s != "" && IsSpace(s[0]) {
      TrimStartMeaning(s[1..]);
      assert forall k :: 1 <= k < |s| ==> s[k] == s[1..][k - 1];
    }
  }

  lemma {:induction false} TrimEndMeaning(s: string)
    ensures TrimEnd(s) == s[..|TrimEnd(s)|]
    ensures TrimEnd(s) != "" ==> !IsSpace(TrimEnd(s)[|TrimEnd(s)| - 1])
    ensures forall k :: |TrimEnd(s)| <= k < |s| ==> IsSpace(s[k])
  {
    if s != "" && IsSpace(s[|s| - 1]) {
      TrimEndMeaning(s[..|s| - 1]);
      assert forall k :: 0 <= k < |s| - 1 ==> s[k] == s[..|s| - 1][k];
    }
  }

  // ----- the replacements of `normalizeText`, in order -----

  /** `/\r\n/g` to `\n`. */
  function JoinBreaks(s: string): string {
    if s == "" then ""
    else if s[0] == '\r' && |s| > 1 && s[1] == '\n' then JoinBreaks(s[1..])
    else [s[0]] + JoinBreaks(s[1..])
  }

  /** `/\u00a0/g` to a space. */
  function PlainSpaces(s: string): string {
    if s == "" then "" else [if s[0] == '\U{A0}' then ' ' else s[0]] + PlainSpaces(s[1..])
  }

  /** `/[\u200B-\u200D\uFEFF]/g` to nothing. */
  function DropZeroWidth(s: string): string {
    if s == "" then "" else (if IsZeroWidth(s[0]) then "" else [s[0]]) + DropZeroWidth(s[1..])
  }

  /** `/[ \t]+\n/g` to `\n`: blanks that run up to a line break go. */
  function StripLineEnds(s: string): string {
    if s == "" then ""
    else
      var r := StripLineEnds(s[1..]);
      if IsBlank(s[0]) && r != "" && r[0] == '\n' then r else [s[0]] + r
  }

  /** `/\n{3,}/g` to two line breaks. */
  function CapBreaks(s: string): string {
    if s == "" then ""
    else
      var r := CapBreaks(s[1..]);
      if s[0] == '\n' && |r| >= 2 && r[0] == '\n' && r[1] == '\n' then r else [s[0]] + r
  }

  /** `/[ \t]{2,}/g` to one space. */
  function JoinBlanks(s: string): string {
    if s == "" then ""
    else
      var r := JoinBlanks(s[1..]);
      if IsBlank(s[0]) && r != "" && IsBlank(r[0]) then " " + r[1..] else [s[0]] + r
  }

  /** `normalizeText`. */
  function NormalizeText(s: string): string {
    Trim(JoinBlanks(CapBreaks(StripLineEnds(DropZeroWidth(PlainSpaces(JoinBreaks(s)))))))
  }

  // ----- patterns that a pass removes, and the others keep away -----

  predicate NoSpecial(s: string) {
    s == "" || (s[0] != '\U{A0}' && !IsZeroWidth(s[0]) && NoSpecial(s[1..]))
  }

  predicate NoBlankBreak(s: string) {
    |s| < 2 || (!(IsBlank(s[0]) && s[1] == '\n') && NoBlankBreak(s[1..]))
  }

  predicate NoTripleBreak(s: string) {
    |s| < 3 || (!(s[0] == '\n' && s[1] == '\n' && s[2] == '\n') && NoTripleBreak(s[1..]))
  }

  predicate NoDoubleBlank(s: string) {
    |s| < 2 || (!(IsBlank(s[0]) && IsBlank(s[1])) && NoDoubleBlank(s[1..]))
  }

  /** No CR LF pair. */
  predicate NoCrLf(s: string) {
    |s| < 2 || (!(s[0] == '\r' && s[1] == '\n') && NoCrLf(s[1..]))
  }

  /** What every normalised text satisfies. */
  predicate Normal(s: string) {
    NoSpecial(s) && NoBlankBreak(s) && NoTripleBreak(s) && NoDoubleBlank(s) && IsTrimmed(s)
  }

  lemma {:induction false} JoinBreaksMeaning(s: string)
    ensures |JoinBreaks(s)| <= |s|
    ensures NoCrLf(s) ==> JoinBreaks(s) == s
    ensures !NoCrLf(s) ==> |JoinBreaks(s)| < |s|
  {
    if s != "" {
      JoinBreaksMeaning(s[1..]);
    }
  }

  lemma {:induction false} PlainSpacesMeaning(s: string)
    ensures |PlainSpaces(s)| == |s|
    ensures forall c :: c in PlainSpaces(s) ==> c != '\U{A0}'
    ensures NoSpecial(s) ==> PlainSpaces(s) == s
  {
    if s != "" {
      PlainSpacesMeaning(s[1..]);
    }
  }

  lemma {:induction false} DropZeroWidthMeaning(s: string)
    ensures |DropZeroWidth(s)| <= |s|
    ensures (forall c :: c in s ==> c != '\U{A0}') ==> NoSpecial(DropZeroWidth(s))
    ensures NoSpecial(s) ==> DropZeroWidth(s) == s
  {
    if s != "" {
      DropZeroWidthMeaning(s[1..]);
      assert s[0] in s && forall c :: c in s[1..] ==> c in s;
      var rest := DropZeroWidth(s[1..]);
      assert ([s[0]] + rest)[1..] == rest && "" + rest == rest;
      hide IsZeroWidth;
    }
  }

  lemma {:induction false} StripLineEndsMeaning(s: string)
    ensures |StripLineEnds(s)| <= |s|
    ensures NoBlankBreak(StripLineEnds(s))
    ensures NoBlankBreak(s) ==> StripLineEnds(s) == s
    ensures NoSpecial(s) ==> NoSpecial(StripLineEnds(s))
  {
    if s != "" {
      StripLineEndsMeaning(s[1..]);
      var r := StripLineEnds(s[1..]);
      assert ([s[0]] + r)[1..] == r;
    }
  }

  lemma {:induction false} CapBreaksMeaning(s: string)
    ensures |CapBreaks(s)| <= |s|
    ensures s != "" ==> CapBreaks(s) != "" && CapBreaks(s)[0] == s[0]
    ensures NoTripleBreak(CapBreaks(s))
    ensures NoTripleBreak(s) ==> CapBreaks(s) == s
    ensures NoSpecial(s) ==> NoSpecial(CapBreaks(s))
    ensures NoBlankBreak(s) ==> NoBlankBreak(CapBreaks(s))
  {
    if s != "" {
      CapBreaksMeaning(s[1..]);
      var r := CapBreaks(s[1..]);
      assert ([s[0]] + r)[1..] == r;
    }
  }

  /** How the result of joining blanks starts. */
  lemma {:induction false} JoinBlanksHead(s: string)
    ensures |JoinBlanks(s)| <= |s|
    ensures s != "" ==> JoinBlanks(s) != "" && (JoinBlanks(s)[0] == s[0] || (IsBlank(s[0]) && JoinBlanks(s)[0] == ' '))
    ensures |JoinBlanks(s)| > 1 && !IsBlank(s[0]) ==>
              |s| > 1 && (JoinBlanks(s)[1] == s[1] || (IsBlank(s[1]) && JoinBlanks(s)[1] == ' '))
  {
    if s != "" {
      JoinBlanksHead(s[1..]);
    }
  }

  lemma {:induction false} JoinBlanksMeaning(s: string)
    ensures NoDoubleBlank(JoinBlanks(s))
    ensures NoDoubleBlank(s) ==> JoinBlanks(s) == s
    ensures NoSpecial(s) ==> NoSpecial(JoinBlanks(s))
    ensures NoBlankBreak(s) ==> NoBlankBreak(JoinBlanks(s))
    ensures NoTripleBreak(s) ==> NoTripleBreak(JoinBlanks(s))
  {
    if s != "" {
      JoinBlanksMeaning(s[1..]);
      JoinBlanksHead(s[1..]);
      var r := JoinBlanks(s[1..]);
      assert ([s[0]] + r)[1..] == r;
      assert r != "" ==> (" " + r[1..])[1..] == r[1..];
    }
  }

  lemma {:induction false} TrimStartKeeps(s: string)
    requires NoSpecial(s) && NoBlankBreak(s) && NoTripleBreak(s) && NoDoubleBlank(s)
    ensures var t := TrimStart(s); NoSpecial(t) && NoBlankBreak(t) && NoTripleBreak(t) && NoDoubleBlank(t)
  {
    if s != "" && IsSpace(s[0]) {
      TrimStartKeeps(s[1..]);
    }
  }

  lemma {:induction false} DropLastKeeps(s: string)
    requires s != "" && NoSpecial(s) && NoBlankBreak(s) && NoTripleBreak(s) && NoDoubleBlank(s)
    ensures var t := s[..|s| - 1]; NoSpecial(t) && NoBlankBreak(t) && NoTripleBreak(t) && NoDoubleBlank(t)
  {
    if |s| > 1 {
      DropLastKeeps(s[1..]);
      assert s[..|s| - 1][1..] == s[1..][..|s| - 2];
    }
  }

  lemma {:induction false} TrimEndKeeps(s: string)
    requires NoSpecial(s) && NoBlankBreak(s) && NoTripleBreak(s) && NoDoubleBlank(s)
    ensures var t := TrimEnd(s); NoSpecial(t) && NoBlankBreak(t) && NoTripleBreak(t) && NoDoubleBlank(t)
  {
    if s != "" && IsSpace(s[|s| - 1]) {
      DropLastKeeps(s);
      TrimEndKeeps(s[..|s| - 1]);
    }
  }

  /** Every normalised text is normal, and never longer than what it came from. */
  lemma NormalizeIsNormal(s: string)
    ensures Normal(NormalizeText(s)) && |NormalizeText(s)| <= |JoinBreaks(s)| <= |s|
  {
    JoinBreaksMeaning(s);
    var a := PlainSpaces(JoinBreaks(s));
    PlainSpacesMeaning(JoinBreaks(s));
    var b := DropZeroWidth(a);
    DropZeroWidthMeaning(a);
    var c := StripLineEnds(b);
    StripLineEndsMeaning(b);
    var d := CapBreaks(c);
    CapBreaksMeaning(c);
    var e := JoinBlanks(d);
    JoinBlanksMeaning(d);
    JoinBlanksHead(d);
    TrimStartKeeps(e);
    TrimEndKeeps(TrimStart(e));
    TrimMeaning(e);
  }

  /** A normal text without CR LF is left as it is. */
  lemma NormalStays(t: string)
    requires Normal(t) && NoCrLf(t)
    ensures NormalizeText(t) == t
  {
    JoinBreaksMeaning(t);
    PassesKeep(t);
  }

  /**
    Normalising is idempotent on a text exactly when it left no CR LF behind. It can: a zero-width
    character, a blank or a further CR before the line break hides one from the first pass.
   */
  lemma NormalizeTwice(s: string)
    ensures NormalizeText(NormalizeText(s)) == NormalizeText(s) <==> NoCrLf(NormalizeText(s))
  {
    var t := NormalizeText(s);
    NormalizeIsNormal(s);
    NormalizeIsNormal(t);
    if NoCrLf(t) {
      NormalStays(t);
    } else {
      JoinBreaksMeaning(t);
    }
  }

  lemma NotIdempotent()
    ensures NormalizeText("a\r\r\nb") == "a\r\nb" && NormalizeText("a\r\nb") == "a\nb"
  {
    JoinBreaksExamples();
    hide JoinBreaks;
    PassesKeep("a\r\nb");
    PassesKeep("a\nb");
  }

  lemma JoinBreaksExamples()
    ensures JoinBreaks("a\r\r\nb") == "a\r\nb" && JoinBreaks("a\r\nb") == "a\nb"
  {
    assert JoinBreaks("\nb") == "\nb";
    assert JoinBreaks("\r\nb") == "\nb";
    assert JoinBreaks("\r\r\nb") == "\r\nb";
  }

  /** The passes after the first leave a normal text alone. */
  lemma PassesKeep(t: string)
    requires Normal(t)
    ensures Trim(JoinBlanks(CapBreaks(StripLineEnds(DropZeroWidth(PlainSpaces(t)))))) == t
  {
    PlainSpacesMeaning(t);
    DropZeroWidthMeaning(t);
    StripLineEndsMeaning(t);
    CapBreaksMeaning(t);
    JoinBlanksMeaning(t);
    TrimMeaning(t);
  }

  // ----- what normalising keeps -----

  /** A character that no pass removes. */
  predicate Shows(c: char) {
    !IsSpace(c) && !IsZeroWidth(c)
  }

  lemma {:induction false} JoinBreaksShows(s: string, c: char)
    requires Shows(c)
    ensures c in JoinBreaks(s) <==> c in s
  {
    if s != "" {
      JoinBreaksShows(s[1..], c);
    }
  }

  lemma {:induction false} PlainSpacesShows(s: string, c: char)
    requires Shows(c)
    ensures c in PlainSpaces(s) <==> c in s
  {
    if s != "" {
      PlainSpacesShows(s[1..], c);
    }
  }

  lemma {:induction false} DropZeroWidthShows(s: string, c: char)
    requires Shows(c)
    ensures c in DropZeroWidth(s) <==> c in s
  {
    if s != "" {
      DropZeroWidthShows(s[1..], c);
    }
  }

  lemma {:induction false} StripLineEndsShows(s: string, c: char)
    requires Shows(c)
    ensures c in StripLineEnds(s) <==> c in s
  {
    if s != "" {
      StripLineEndsShows(s[1..], c);
    }
  }

  lemma {:induction false} CapBreaksShows(s: string, c: char)
    requires Shows(c)
    ensures c in CapBreaks(s) <==> c in s
  {
    if s != "" {
      CapBreaksShows(s[1..], c);
    }
  }

  lemma {:induction false} JoinBlanksShows(s: string, c: char)
    requires Shows(c)
    ensures c in JoinBlanks(s) <==> c in s
  {
    if s != "" {
      JoinBlanksShows(s[1..], c);
      var r := JoinBlanks(s[1..]);
      assert r != "" ==> r == [r[0]] + r[1..];
    }
  }

  lemma TrimShows(s: string, c: char)
    requires Shows(c)
    ensures c in Trim(s) <==> c in s
  {
    TrimStartMeaning(s);
    var t := TrimStart(s);
    TrimEndMeaning(t);
    assert s == s[..|s| - |t|] + t && t == t[..|Trim(s)|] + t[|Trim(s)|..];
  }

  /** Normalising keeps every visible character, and yields nothing only where there was nothing to see. */
  lemma NormalizeShows(s: string, c: char)
    requires Shows(c)
    ensures c in NormalizeText(s) <==> c in s
  {
    JoinBreaksShows(s, c);
    var a := PlainSpaces(JoinBreaks(s));
    PlainSpacesShows(JoinBreaks(s), c);
    var b := DropZeroWidth(a);
    DropZeroWidthShows(a, c);
    StripLineEndsShows(b, c);
    CapBreaksShows(StripLineEnds(b), c);
    JoinBlanksShows(CapBreaks(StripLineEnds(b)), c);
    TrimShows(JoinBlanks(CapBreaks(StripLineEnds(b))), c);
  }

  lemma NormalizeEmpty(s: string)
    ensures NormalizeText(s) == "" <==> forall c :: c in s ==> !Shows(c)
  {
    var t := NormalizeText(s);
    NormalizeIsNormal(s);
    if t != "" {
      assert t[0] in t && !IsSpace(t[0]) && !IsZeroWidth(t[0]);
      NormalizeShows(s, t[0]);
    }
    forall c | c in s && Shows(c)
      ensures t != ""
    {
      NormalizeShows(s, c);
    }
  }

  /** A second pass never blanks what the first one kept. */
  lemma NormalizeKeepsSomething(s: string)
    ensures NormalizeText(s) != "" ==> NormalizeText(NormalizeText(s)) != ""
  {
    hide NormalizeText;
    NormalizeEmpty(s);
    NormalizeEmpty(NormalizeText(s));
    if c :| c in s && Shows(c) {
      NormalizeShows(s, c);
    }
  }

  // ----- what normalising means -----

  /**
    One character before a skeleton. Characters that show stay; between them a gap is a blank, a line break or
    two, by the number of breaks in it; zero-width characters and white space at the end are nothing.
   */
  function Before(c: char, r: string): string {
    if IsZeroWidth(c) then r
    else if !IsSpace(c) then [c] + r
    else if r == "" || "\n\n" <= r then r
    else if c != '\n' then (if r[0] == '\n' || r[0] == ' ' then r else " " + r)
    else if r[0] == ' ' then "\n" + r[1..]
    else "\n" + r
  }

  function Onto(s: string, r: string): string {
    if s == "" then r else Before(s[0], Onto(s[1..], r))
  }

  /** The words and gaps of a text. */
  function Skeleton(s: string): string {
    Onto(s, "")
  }

  function NoLead(r: string): string {
    if r != "" && (r[0] == ' ' || r[0] == '\n') then NoLead(r[1..]) else r
  }

  lemma {:induction false} OntoConcat(a: string, b: string, r: string)
    ensures Onto(a + b, r) == Onto(a, Onto(b, r))
  {
    if a == "" {
      assert a + b == b;
    } else {
      assert (a + b)[1..] == a[1..] + b;
      OntoConcat(a[1..], b, r);
    }
  }

  /** A skeleton starts with a character that shows, or one gap before one. */
  predicate Formed(r: string) {
    r == "" || Shows(r[0])
    || (|r| > 1 && r[0] == ' ' && Shows(r[1])) || (|r| > 1 && r[0] == '\n' && Shows(r[1]))
    || (|r| > 2 && r[0] == '\n' && r[1] == '\n' && Shows(r[2]))
  }

  lemma {:induction false} OntoFormed(s: string, r: string)
    requires Formed(r)
    ensures Formed(Onto(s, r))
  {
    if s != "" {
      OntoFormed(s[1..], r);
    }
  }

  lemma FormedLead(c: char, r: string)
    requires Formed(r) && IsSpace(c)
    ensures NoLead(Before(c, r)) == NoLead(r)
  {
    if IsZeroWidth(c) || r == "" || "\n\n" <= r {
    } else if r[0] == ' ' || r[0] == '\n' {
      assert ("\n" + r[1..])[1..] == r[1..] && ("\n" + r)[1..] == r;
    } else {
      assert (" " + r)[1..] == r && ("\n" + r)[1..] == r;
    }
  }

  lemma {:induction false} JoinBreaksSkeleton(s: string)
    ensures Skeleton(JoinBreaks(s)) == Skeleton(s)
  {
    if s != "" {
      JoinBreaksSkeleton(s[1..]);
      OntoFormed(s[1..], "");
      if s[0] == '\r' && |s| > 1 && s[1] == '\n' {
        OntoFormed(s[1..][1..], "");
        CarriageGone(Skeleton(s[1..][1..]));
      }
    }
  }

  lemma CarriageGone(r: string)
    requires Formed(r)
    ensures Before('\r', Before('\n', r)) == Before('\n', r)
  {
  }

  lemma {:induction false} PlainSpacesSkeleton(s: string)
    ensures Skeleton(PlainSpaces(s)) == Skeleton(s)
  {
    if s != "" {
      PlainSpacesSkeleton(s[1..]);
    }
  }

  lemma {:induction false} DropZeroWidthSkeleton(s: string)
    ensures Skeleton(DropZeroWidth(s)) == Skeleton(s)
  {
    if s != "" {
      DropZeroWidthSkeleton(s[1..]);
      var rest := DropZeroWidth(s[1..]);
      assert ([s[0]] + rest)[1..] == rest && "" + rest == rest;
    }
  }

  lemma {:induction false} StripLineEndsSkeleton(s: string)
    ensures Skeleton(StripLineEnds(s)) == Skeleton(s)
  {
    if s != "" {
      StripLineEndsSkeleton(s[1..]);
      var r := StripLineEnds(s[1..]);
      assert ([s[0]] + r)[1..] == r;
      if IsBlank(s[0]) && r != "" && r[0] == '\n' {
        OntoFormed(r[1..], "");
        BlankGone(s[0], Skeleton(r[1..]));
      }
    }
  }

  lemma BlankGone(c: char, r: string)
    requires Formed(r) && IsBlank(c)
    ensures Before(c, Before('\n', r)) == Before('\n', r)
    ensures forall d :: IsBlank(d) ==> Before(c, Before(d, r)) == Before(' ', r)
  {
  }

  lemma {:induction false} CapBreaksSkeleton(s: string)
    ensures Skeleton(CapBreaks(s)) == Skeleton(s)
  {
    if s != "" {
      CapBreaksSkeleton(s[1..]);
      var r := CapBreaks(s[1..]);
      assert ([s[0]] + r)[1..] == r;
      if s[0] == '\n' && |r| >= 2 && r[0] == '\n' && r[1] == '\n' {
        var more := r[1..][1..];
        OntoFormed(more, "");
        ThirdBreak(Skeleton(more));
        assert r[1..][0] == '\n' && Skeleton(r[1..]) == Before('\n', Skeleton(more));
      }
    }
  }

  lemma ThirdBreak(r: string)
    requires Formed(r)
    ensures Before('\n', Before('\n', Before('\n', r))) == Before('\n', Before('\n', r))
  {
  }

  lemma {:induction false} JoinBlanksSkeleton(s: string)
    ensures Skeleton(JoinBlanks(s)) == Skeleton(s)
  {
    if s != "" {
      JoinBlanksSkeleton(s[1..]);
      var r := JoinBlanks(s[1..]);
      assert ([s[0]] + r)[1..] == r;
      if IsBlank(s[0]) && r != "" && IsBlank(r[0]) {
        OntoFormed(r[1..], "");
        assert (" " + r[1..])[1..] == r[1..];
        BlankGone(s[0], Skeleton(r[1..]));
      }
    }
  }

  lemma {:induction false} SpacesBefore(w: string, r: string)
    requires Formed(r) && forall c :: c in w ==> IsSpace(c)
    ensures NoLead(Onto(w, r)) == NoLead(r)
    ensures r == "" || "\n\n" <= r ==> Onto(w, r) == r
  {
    if w != "" {
      SpacesBefore(w[1..], r);
      OntoFormed(w[1..], r);
      FormedLead(w[0], Onto(w[1..], r));
    }
  }

  /** Trimming keeps the skeleton, but for a gap in front; so before two line breaks. */
  lemma TrimSkeleton(s: string, r: string)
    requires Formed(r) && (r == "" || "\n\n" <= r)
    ensures NoLead(Onto(Trim(s), r)) == NoLead(Onto(s, r))
    ensures Trim(s) != "" && !IsZeroWidth(Trim(s)[0]) ==> NoLead(Onto(Trim(s), r)) == Onto(Trim(s), r)
  {
    hide *;
    TrimStartMeaning(s);
    var t := TrimStart(s);
    TrimEndMeaning(t);
    var u := TrimEnd(t);
    var w, v := s[..|s| - |t|], t[|u|..];
    assert s == w + t && t == u + v;
    assert Trim(s) == u by {
      TrimIs(s);
    }
    OntoConcat(u, v, r);
    SpacesBefore(v, r);
    OntoFormed(t, r);
    OntoConcat(w, t, r);
    SpacesBefore(w, Onto(t, r));
    if u != "" && !IsZeroWidth(u[0]) {
      assert u[0] == t[0];
      VisibleFirst(u, r);
    }
  }

  lemma TrimIs(s: string)
    ensures Trim(s) == TrimEnd(TrimStart(s))
  {
  }

  lemma VisibleFirst(u: string, r: string)
    requires u != "" && !IsSpace(u[0]) && !IsZeroWidth(u[0])
    ensures NoLead(Onto(u, r)) == Onto(u, r) && Onto(u, r) != "" && Onto(u, r)[0] == u[0]
  {
  }

  /**
    What normalising does to any text: it keeps the words, letter for letter and in order, and between them the
    kind of gap. Every character comes from the text, or is a blank.
   */
  lemma NormalizeMeaning(s: string)
    ensures Skeleton(NormalizeText(s)) == NoLead(Skeleton(s))
    ensures forall c :: c in NormalizeText(s) ==> c in s || c == ' '
  {
    var a := JoinBreaks(s);
    var b := PlainSpaces(a);
    var c := DropZeroWidth(b);
    var d := StripLineEnds(c);
    var e := CapBreaks(d);
    var f := JoinBlanks(e);
    JoinBreaksSkeleton(s);
    PlainSpacesSkeleton(a);
    DropZeroWidthSkeleton(b);
    StripLineEndsSkeleton(c);
    CapBreaksSkeleton(d);
    JoinBlanksSkeleton(e);
    TrimSkeleton(f, "");
    NormalizeIsNormal(s);
    assert NormalizeText(s) == Trim(f);
    PassChars(s);
    hide *;
    FirstShows(Trim(f));
    if Trim(f) == "" {
      NothingLeads();
    } else {
      VisibleFirst(Trim(f), "");
    }
    SkeletonIs(f);
    SkeletonIs(Trim(f));
  }

  lemma SkeletonIs(s: string)
    ensures Skeleton(s) == Onto(s, "")
  {
  }

  lemma NothingLeads()
    ensures NoLead(Onto("", "")) == Onto("", "")
  {
  }

  lemma FirstShows(s: string)
    requires Normal(s)
    ensures s != "" ==> !IsSpace(s[0]) && !IsZeroWidth(s[0])
  {
  }

  /** Where the characters of a normalised text come from. */
  lemma PassChars(s: string)
    ensures forall c :: c in NormalizeText(s) ==> c in s || c == ' '
  {
    var a := JoinBreaks(s);
    var b := PlainSpaces(a);
    var c := DropZeroWidth(b);
    var d := StripLineEnds(c);
    var e := CapBreaks(d);
    var f := JoinBlanks(e);
    JoinBreaksChars(s);
    PlainSpacesChars(a);
    DropZeroWidthChars(b);
    StripLineEndsChars(c);
    CapBreaksChars(d);
    JoinBlanksChars(e);
    TrimMeaning(f);
    hide Trim, JoinBlanks, CapBreaks, StripLineEnds, DropZeroWidth, PlainSpaces, JoinBreaks;
    assert forall c :: c in Trim(f) ==> c in f;
  }

  lemma {:induction false} JoinBreaksChars(s: string)
    ensures forall c :: c in JoinBreaks(s) ==> c in s
  {
    if s != "" {
      JoinBreaksChars(s[1..]);
      assert s == [s[0]] + s[1..];
    }
  }

  lemma {:induction false} PlainSpacesChars(s: string)
    ensures forall c :: c in PlainSpaces(s) ==> c in s || c == ' '
  {
    if s != "" {
      PlainSpacesChars(s[1..]);
      assert s == [s[0]] + s[1..];
    }
  }

  lemma {:induction false} DropZeroWidthChars(s: string)
    ensures forall c :: c in DropZeroWidth(s) ==> c in s
  {
    if s != "" {
      DropZeroWidthChars(s[1..]);
      assert s == [s[0]] + s[1..];
    }
  }

  lemma {:induction false} StripLineEndsChars(s: string)
    ensures forall c :: c in StripLineEnds(s) ==> c in s
  {
    if s != "" {
      StripLineEndsChars(s[1..]);
      assert s == [s[0]] + s[1..];
    }
  }

  lemma {:induction false} CapBreaksChars(s: string)
    ensures forall c :: c in CapBreaks(s) ==> c in s
  {
    if s != "" {
      CapBreaksChars(s[1..]);
      assert s == [s[0]] + s[1..];
    }
  }

  lemma {:induction false} JoinBlanksChars(s: string)
    ensures forall c :: c in JoinBlanks(s) ==> c in s || c == ' '
  {
    if s != "" {
      JoinBlanksChars(s[1..]);
      assert s == [s[0]] + s[1..];
      var r := JoinBlanks(s[1..]);
      assert r != "" ==> r == [r[0]] + r[1..];
    }
  }
}
