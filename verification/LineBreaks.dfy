/**
  When `normalizeText` of `src/text-utils.mjs` is idempotent, as a condition on its input: the first pass
  joins CR LF only where the two are neighbours, and the later passes can bring others together.
 */
module LineBreaks {
  import opened JsText

  /** What the later passes take away before a line break. */
  predicate IsJunk(c: char) {
    IsBlank(c) || c == '\U{A0}' || IsZeroWidth(c)
  }

  function SkipJunk(s: string): (r: string)
    ensures |r| <= |s|
  {
    if s != "" && IsJunk(s[0]) then SkipJunk(s[1..]) else s
  }

  predicate HasShown(s: string) {
    s != "" && (Shows(s[0]) || HasShown(s[1..]))
  }

  /** A break follows that the first pass does not join with a CR before `r`: some junk and LF, or CR LF. */
  predicate OpensBreak(r: string) {
    var q := SkipJunk(r);
    (q != "" && q[0] == '\n' && |q| < |r|) || (|q| > 1 && q[0] == '\r' && q[1] == '\n')
  }

  /** A CR that ends up before a LF, with something to see before and after it. */
  predicate StrayCr(s: string, i: nat)
    requires i < |s|
  {
    s[i] == '\r' && OpensBreak(s[i + 1..]) && HasShown(s[..i]) && HasShown(s[i + 1..])
  }

  predicate LeavesCrLf(s: string) {
    exists i :: 0 <= i < |s| && StrayCr(s, i)
  }

  /** Normalising is idempotent on exactly the texts without a stray CR. */
  lemma IdempotentIff(s: string)
    ensures NormalizeText(NormalizeText(s)) == NormalizeText(s) <==> !LeavesCrLf(s)
  {
    hide *;
    NormalizeTwice(s);
    LeavesIff(s);
  }

  /** A CR LF pair is left by normalising exactly when the text has a stray CR. */
  lemma LeavesIff(s: string)
    ensures NoCrLf(NormalizeText(s)) <==> !LeavesCrLf(s)
  {
    var a := JoinBreaks(s);
    var b := PlainSpaces(a);
    var c := DropZeroWidth(b);
    var d := StripLineEnds(c);
    var e := CapBreaks(d);
    var f := JoinBlanks(e);
    assert NormalizeText(s) == Trim(f);
    hide *;
    ScanMeaning(s);
    JoinBreaksScan(s, false);
    PlainSpacesScan(a, false);
    DropZeroWidthScan(b, false);
    StripLineEndsScan(c, false);
    CapBreaksScan(d, false);
    JoinBlanksScan(e, false);
    TrimScan(f);
    NormalizeIsNormal(s);
    NormalScan(NormalizeText(s));
  }

  // ----- the condition as a scan from the left -----

  /** A stray CR in `s`, when something is `shown` before it. */
  predicate Stray(s: string, shown: bool) {
    s != "" && ((shown && s[0] == '\r' && OpensBreak(s[1..]) && HasShown(s[1..]))
                || Stray(s[1..], shown || Shows(s[0])))
  }

  ghost predicate StrayAt(s: string, i: nat, shown: bool)
    requires i < |s|
  {
    s[i] == '\r' && OpensBreak(s[i + 1..]) && HasShown(s[i + 1..]) && (shown || HasShown(s[..i]))
  }

  lemma ScanMeaning(s: string)
    ensures Stray(s, false) <==> LeavesCrLf(s)
  {
    StrayMeaning(s, false);
    assert forall i: nat :: i < |s| ==> (StrayAt(s, i, false) <==> StrayCr(s, i));
  }

  lemma {:induction false} StrayMeaning(s: string, shown: bool)
    ensures Stray(s, shown) <==> exists i: nat :: i < |s| && StrayAt(s, i, shown)
  {
    hide OpensBreak;
    hide Shows;
    if s != "" {
      var r, more := s[1..], shown || Shows(s[0]);
      StrayMeaning(r, more);
      forall i: nat | i < |r|
        ensures StrayAt(s, i + 1, shown) <==> StrayAt(r, i, more)
      {
        assert r[i + 1..] == s[i + 2..];
        assert s[..i + 1][1..] == r[..i] && s[..i + 1][0] == s[0];
      }
      assert StrayAt(s, 0, shown) <==> shown && s[0] == '\r' && OpensBreak(r) && HasShown(r) by {
        assert s[..0] == "";
      }
      if i: nat :| i < |r| && StrayAt(r, i, more) {
        assert StrayAt(s, i + 1, shown);
      }
      if i: nat :| i < |s| && StrayAt(s, i, shown) {
        assert i > 0 ==> StrayAt(r, i - 1, more);
      }
    }
  }

  // ----- what every pass keeps -----

  predicate JunkBreak(r: string) {
    var q := SkipJunk(r);
    q != "" && q[0] == '\n'
  }

  /** After the first pass: a CR with only junk before the next LF, something shown before it and after it. */
  predicate Split(s: string, shown: bool) {
    s != "" && ((shown && s[0] == '\r' && JunkBreak(s[1..]) && HasShown(s[1..]))
                || Split(s[1..], shown || Shows(s[0])))
  }

  lemma {:induction false} JoinBreaksScan(s: string, shown: bool)
    ensures HasShown(JoinBreaks(s)) <==> HasShown(s)
    ensures JunkBreak(JoinBreaks(s)) <==> OpensBreak(s) || (s != "" && s[0] == '\n')
    ensures Split(JoinBreaks(s), shown) <==> Stray(s, shown)
  {
    if s != "" {
      JoinBreaksScan(s[1..], shown || Shows(s[0]));
      assert ([s[0]] + JoinBreaks(s[1..]))[1..] == JoinBreaks(s[1..]);
      JoinBreaksJunk(s);
    }
  }

  lemma {:induction false} JoinBreaksJunk(s: string)
    ensures JunkBreak(JoinBreaks(s)) <==> OpensBreak(s) || (s != "" && s[0] == '\n')
  {
    if s != "" {
      JoinBreaksJunk(s[1..]);
      assert ([s[0]] + JoinBreaks(s[1..]))[1..] == JoinBreaks(s[1..]);
    }
  }

  lemma {:induction false} PlainSpacesScan(s: string, shown: bool)
    ensures HasShown(PlainSpaces(s)) <==> HasShown(s)
    ensures JunkBreak(PlainSpaces(s)) <==> JunkBreak(s)
    ensures Split(PlainSpaces(s), shown) <==> Split(s, shown)
  {
    if s != "" {
      PlainSpacesScan(s[1..], shown || Shows(s[0]));
      assert PlainSpaces(s)[1..] == PlainSpaces(s[1..]);
    }
  }

  lemma {:induction false} DropZeroWidthScan(s: string, shown: bool)
    ensures HasShown(DropZeroWidth(s)) <==> HasShown(s)
    ensures JunkBreak(DropZeroWidth(s)) <==> JunkBreak(s)
    ensures Split(DropZeroWidth(s), shown) <==> Split(s, shown)
  {
    if s != "" {
      var r := DropZeroWidth(s[1..]);
      DropZeroWidthScan(s[1..], shown || Shows(s[0]));
      assert "" + r == r && ([s[0]] + r)[1..] == r;
    }
  }

  lemma {:induction false} StripLineEndsScan(s: string, shown: bool)
    ensures HasShown(StripLineEnds(s)) <==> HasShown(s)
    ensures JunkBreak(StripLineEnds(s)) <==> JunkBreak(s)
    ensures Split(StripLineEnds(s), shown) <==> Split(s, shown)
  {
    if s != "" {
      var r := StripLineEnds(s[1..]);
      StripLineEndsScan(s[1..], shown || Shows(s[0]));
      assert ([s[0]] + r)[1..] == r;
    }
  }

  lemma {:induction false} CapBreaksScan(s: string, shown: bool)
    ensures HasShown(CapBreaks(s)) <==> HasShown(s)
    ensures JunkBreak(CapBreaks(s)) <==> JunkBreak(s)
    ensures Split(CapBreaks(s), shown) <==> Split(s, shown)
  {
    if s != "" {
      var r := CapBreaks(s[1..]);
      CapBreaksScan(s[1..], shown || Shows(s[0]));
      assert ([s[0]] + r)[1..] == r;
    }
  }

  lemma {:induction false} JoinBlanksScan(s: string, shown: bool)
    ensures HasShown(JoinBlanks(s)) <==> HasShown(s)
    ensures JunkBreak(JoinBlanks(s)) <==> JunkBreak(s)
    ensures Split(JoinBlanks(s), shown) <==> Split(s, shown)
  {
    if s != "" {
      var r := JoinBlanks(s[1..]);
      JoinBlanksScan(s[1..], shown || Shows(s[0]));
      assert ([s[0]] + r)[1..] == r;
      assert r != "" ==> (" " + r[1..])[1..] == r[1..];
    }
  }

  lemma TrimScan(s: string)
    ensures Split(Trim(s), false) <==> Split(s, false)
  {
    TrimStartScan(s);
    TrimEndScan(TrimStart(s));
  }

  lemma {:induction false} TrimStartScan(s: string)
    ensures Split(TrimStart(s), false) <==> Split(s, false)
  {
    if s != "" && IsSpace(s[0]) {
      TrimStartScan(s[1..]);
    }
  }

  lemma {:induction false} TrimEndScan(s: string)
    ensures Split(TrimEnd(s), false) <==> Split(s, false)
  {
    if s != "" && IsSpace(s[|s| - 1]) {
      TrimEndScan(s[..|s| - 1]);
      LastSpaceScan(s[..|s| - 1], s[|s| - 1], false);
      assert s == s[..|s| - 1] + [s[|s| - 1]];
    }
  }

  /** A space at the end changes nothing of this. */
  lemma {:induction false} LastSpaceScan(s: string, c: char, shown: bool)
    requires IsSpace(c)
    ensures HasShown(s + [c]) <==> HasShown(s)
    ensures HasShown(s) ==> (JunkBreak(s + [c]) <==> JunkBreak(s))
    ensures Split(s + [c], shown) <==> Split(s, shown)
  {
    if s != "" {
      LastSpaceScan(s[1..], c, shown || Shows(s[0]));
      assert (s + [c])[1..] == s[1..] + [c];
    } else {
      assert (s + [c])[1..] == "";
    }
  }

  // ----- normalised texts -----

  lemma NormalScan(t: string)
    requires Normal(t)
    ensures NoCrLf(t) <==> !Split(t, false)
  {
    if t != "" {
      AllOrdinary(t);
      InteriorScan(t[1..]);
    }
  }

  lemma {:induction false} AllOrdinary(t: string)
    requires NoSpecial(t)
    ensures forall k :: 0 <= k < |t| ==> t[k] != '\U{A0}' && !IsZeroWidth(t[k])
  {
    if t != "" {
      AllOrdinary(t[1..]);
      assert forall k :: 0 < k < |t| ==> t[k] == t[1..][k - 1];
    }
  }

  /** Without junk before a break, and with something shown at the end, only CR LF itself is split so. */
  lemma {:induction false} InteriorScan(t: string)
    requires NoSpecial(t) && NoBlankBreak(t) && (t != "" ==> Shows(t[|t| - 1]))
    ensures NoCrLf(t) <==> !Split(t, true)
    ensures t != "" ==> HasShown(t)
  {
    if t != "" {
      InteriorScan(t[1..]);
      NoJunkBreak(t[1..]);
    }
  }

  lemma {:induction false} NoJunkBreak(r: string)
    requires NoSpecial(r) && NoBlankBreak(r)
    ensures JunkBreak(r) <==> r != "" && r[0] == '\n'
  {
    if r != "" {
      NoJunkBreak(r[1..]);
    }
  }
}
