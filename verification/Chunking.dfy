/**
  The overlapping text chunker of `src/chunking.mjs`: it loses nothing, its chunks can be put together
  again, and their size is bounded.
 */
module Chunking {
  import opened Basics
  import opened JsText

  const Gap := "\n\n"

  // ----- paragraphs -----

  /** Index of the first two line breaks in a row, or `|s|`. */
  function FirstGap(s: string): (k: nat)
    ensures k <= |s|
    ensures k < |s| ==> k + 1 < |s| && s[k] == '\n' && s[k + 1] == '\n'
  {
    if s == "" || (|s| > 1 && s[0] == '\n' && s[1] == '\n') then 0 else 1 + FirstGap(s[1..])
  }

  function SkipBreaks(s: string): (r: string)
    ensures |r| <= |s|
  {
    if s != "" && s[0] == '\n' then SkipBreaks(s[1..]) else s
  }

  /** `s.split(/\n{2,}/)`. */
  function SplitGaps(s: string): seq<string>
    decreases |s|
  {
    var k := FirstGap(s);
    if k == |s| then [s] else [s[..k]] + SplitGaps(SkipBreaks(s[k + 2..]))
  }

  /** `.map((part) => part.trim()).filter(Boolean)`. */
  function TrimmedParts(parts: seq<string>): seq<string> {
    if parts == [] then []
    else
      var part := Trim(parts[0]);
      (if part == "" then [] else [part]) + TrimmedParts(parts[1..])
  }

  function Pieces(s: string): seq<string> {
    TrimmedParts(SplitGaps(s))
  }

  function SplitParagraphs(text: string): seq<string> {
    Pieces(NormalizeText(text))
  }

  predicate NoGap(s: string) {
    FirstGap(s) == |s|
  }

  predicate Paragraph(p: string) {
    p != "" && IsTrimmed(p) && NoGap(p)
  }

  ghost predicate Paragraphs(ps: seq<string>) {
    forall i :: 0 <= i < |ps| ==> Paragraph(ps[i])
  }

  // ----- chunks -----

  /** `s.slice(-overlap)`: the last `overlap` characters; all of them for 0, as `-0` is 0. */
  function SliceFromEnd(s: string, overlap: int): string {
    if overlap > 0 then (if overlap < |s| then s[|s| - overlap..] else s)
    else if -overlap < |s| then s[-overlap..]
    else ""
  }

  function Tail(s: string, overlap: int): string {
    Trim(SliceFromEnd(s, overlap))
  }

  /** What the chunk after `s` opens with. */
  function Lead(s: string, overlap: int): string {
    var tail := Tail(s, overlap);
    if tail == "" then "" else tail + Gap
  }

  function Candidate(current: string, p: string): string {
    if current == "" then p else current + Gap + p
  }

  /** The loop of `chunkText` from a state with `current`, and the push after it. */
  function ChunkFrom(ps: seq<string>, current: string, maxSize: int, overlap: int): seq<string> {
    if ps == [] then (if current == "" then [] else [current])
    else
      var candidate := Candidate(current, ps[0]);
      if |candidate| <= maxSize || current == "" then ChunkFrom(ps[1..], candidate, maxSize, overlap)
      else [current] + ChunkFrom(ps[1..], Lead(current, overlap) + ps[0], maxSize, overlap)
  }

  function Chunks(ps: seq<string>, maxSize: int, overlap: int): seq<string> {
    ChunkFrom(ps, "", maxSize, overlap)
  }

  // ----- paragraphs are what splitting yields, and what it gives back -----

  lemma {:induction false} NoGapBefore(s: string)
    ensures NoGap(s[..FirstGap(s)])
  {
    var k := FirstGap(s);
    if k > 0 {
      NoGapBefore(s[1..]);
      assert s[..k][1..] == s[1..][..k - 1];
    }
  }

  lemma {:induction false} NoGapDropLast(s: string)
    requires s != "" && NoGap(s)
    ensures NoGap(s[..|s| - 1])
  {
    if |s| > 1 {
      NoGapDropLast(s[1..]);
      assert s[..|s| - 1][1..] == s[1..][..|s| - 2];
    }
  }

  lemma {:induction false} NoGapTrimStart(s: string)
    requires NoGap(s)
    ensures NoGap(TrimStart(s))
  {
    if s != "" && IsSpace(s[0]) {
      NoGapTrimStart(s[1..]);
    }
  }

  lemma {:induction false} NoGapTrimEnd(s: string)
    requires NoGap(s)
    ensures NoGap(TrimEnd(s))
  {
    if s != "" && IsSpace(s[|s| - 1]) {
      NoGapDropLast(s);
      NoGapTrimEnd(s[..|s| - 1]);
    }
  }

  lemma {:induction false} SplitHasNoGap(s: string)
    ensures forall i :: 0 <= i < |SplitGaps(s)| ==> NoGap(SplitGaps(s)[i])
    decreases |s|
  {
    var k := FirstGap(s);
    NoGapBefore(s);
    if k == |s| {
      assert s[..k] == s;
    } else {
      SplitHasNoGap(SkipBreaks(s[k + 2..]));
    }
  }

  lemma {:induction false} TrimmedPartsAreParagraphs(parts: seq<string>)
    requires forall i :: 0 <= i < |parts| ==> NoGap(parts[i])
    ensures Paragraphs(TrimmedParts(parts))
  {
    if parts != [] {
      TrimmedPartsAreParagraphs(parts[1..]);
      NoGapTrimStart(parts[0]);
      NoGapTrimEnd(TrimStart(parts[0]));
      TrimMeaning(parts[0]);
    }
  }

  lemma SplitYieldsParagraphs(text: string)
    ensures Paragraphs(SplitParagraphs(text))
  {
    SplitHasNoGap(NormalizeText(text));
    TrimmedPartsAreParagraphs(SplitGaps(NormalizeText(text)));
  }

  function Joined(group: seq<string>): string {
    if group == [] then ""
    else if |group| == 1 then group[0]
    else group[0] + Gap + Joined(group[1..])
  }

  lemma {:induction false} JoinedSnoc(group: seq<string>, p: string)
    ensures Joined(group + [p]) == if group == [] then p else Joined(group) + Gap + p
  {
    if group == [] {
      assert group + [p] == [p];
    } else {
      JoinedSnoc(group[1..], p);
      assert (group + [p])[1..] == group[1..] + [p];
      if |group| == 1 {
        assert Joined(group[1..] + [p]) == p;
      } else {
        assert group[0] + Gap + (Joined(group[1..]) + Gap + p) == group[0] + Gap + Joined(group[1..]) + Gap + p;
      }
    }
  }

  lemma {:induction false} GapAfter(p: string, rest: string)
    requires NoGap(p) && p != "" && p[|p| - 1] != '\n'
    ensures FirstGap(p + Gap + rest) == |p|
  {
    var s := p + Gap + rest;
    assert s[1..] == p[1..] + Gap + rest;
    if |p| == 1 {
      assert p[1..] + Gap + rest == Gap + rest;
      assert s[1] == '\n';
    } else {
      assert s[1] == p[1];
      GapAfter(p[1..], rest);
    }
  }

  lemma {:induction false} JoinedStartsVisible(group: seq<string>)
    requires group != [] && Paragraphs(group)
    ensures Joined(group) != "" && !IsSpace(Joined(group)[0]) && !IsSpace(Joined(group)[|Joined(group)| - 1])
  {
    if |group| > 1 {
      JoinedStartsVisible(group[1..]);
    }
    assert Paragraph(group[0]);
  }

  /** Paragraphs joined by blank lines are split again exactly. */
  lemma {:induction false} PiecesOfJoined(group: seq<string>)
    requires group != [] && Paragraphs(group)
    ensures Pieces(Joined(group)) == group
  {
    var p := group[0];
    assert Paragraph(p);
    TrimMeaning(p);
    if |group| == 1 {
      assert SplitGaps(p) == [p];
      assert TrimmedParts([p]) == [p] + TrimmedParts([p][1..]);
      assert group == [p];
    } else {
      var rest := Joined(group[1..]);
      PiecesOfJoined(group[1..]);
      JoinedStartsVisible(group[1..]);
      GapAfter(p, rest);
      var s := p + Gap + rest;
      assert s[..|p|] == p && s[|p| + 2..] == rest;
      assert SkipBreaks(rest) == rest;
      assert SplitGaps(s) == [p] + SplitGaps(rest);
      assert ([p] + SplitGaps(rest))[1..] == SplitGaps(rest);
      assert group == [p] + group[1..];
    }
  }

  // ----- splitting loses nothing -----

  /** Two line breaks or more before a skeleton: the widest gap, and only before something. */
  lemma TwoBreaks(r: string)
    requires Formed(r)
    ensures Before('\n', Before('\n', r)) == if r == "" then "" else Gap + NoLead(r)
    ensures NoLead(Before('\n', r)) == NoLead(r) && (Before('\n', r) == "" <==> r == "") && Formed(Before('\n', r))
    ensures NoLead(Gap + NoLead(r)) == NoLead(r) && NoLead(NoLead(r)) == NoLead(r) && (r == "" <==> NoLead(r) == "")
    ensures Formed(NoLead(r))
  {
    FormedLead('\n', r);
    if r != "" && !Shows(r[0]) {
      assert r[1] == r[1..][0];
      if !Shows(r[1]) {
        assert r[1..][1..][0] == r[2];
      }
    }
    var t := NoLead(r);
    assert (Gap + t)[1..] == "\n" + t && ("\n" + t)[1..] == t;
  }

  lemma {:induction false} BreaksBefore(b: string, r: string)
    requires Formed(r) && forall i :: 0 <= i < |b| ==> b[i] == '\n'
    ensures Onto(Gap + b, r) == if r == "" then "" else Gap + NoLead(r)
  {
    if b == "" {
      assert Gap + b == Gap;
      OntoGap(r);
      TwoBreaks(r);
    } else {
      assert Gap + b == "\n" + (Gap + b[1..]);
      assert ("\n" + (Gap + b[1..]))[1..] == Gap + b[1..];
      BreaksBefore(b[1..], r);
      TwoBreaks(r);
    }
  }

  lemma OntoGap(r: string)
    ensures Onto(Gap, r) == Before('\n', Before('\n', r))
  {
    assert Gap[1..] == "\n" && "\n"[1..] == "";
    assert Onto("\n", r) == Before('\n', Onto("", r));
  }

  lemma {:induction false} SkippedBreaks(s: string)
    ensures var r := SkipBreaks(s); r == s[|s| - |r|..] && forall i :: 0 <= i < |s| - |r| ==> s[i] == '\n'
  {
    if s != "" && s[0] == '\n' {
      SkippedBreaks(s[1..]);
      forall i | 1 <= i < |s| - |SkipBreaks(s)|
        ensures s[i] == '\n'
      {
        assert s[i] == s[1..][i - 1];
      }
    }
  }

  lemma PiecesStep(s: string)
    ensures var k := FirstGap(s);
            Pieces(s) == (if Trim(s[..k]) == "" then [] else [Trim(s[..k])])
                         + (if k < |s| then Pieces(SkipBreaks(s[k + 2..])) else [])
  {
    var k := FirstGap(s);
    hide FirstGap, SkipBreaks, Trim;
    if k == |s| {
      assert s[..k] == s && SplitGaps(s) == [s] && [s][1..] == [];
      assert TrimmedParts([s][1..]) == [];
    } else {
      var more := SplitGaps(SkipBreaks(s[k + 2..]));
      assert ([s[..k]] + more)[1..] == more;
    }
  }

  /** The pieces show, and laid out with blank lines they have the words and gaps of the text. */
  ghost predicate Kept(s: string) {
    && Skeleton(Joined(Pieces(s))) == NoLead(Skeleton(s))
    && forall i :: 0 <= i < |Pieces(s)| ==> Pieces(s)[i] != "" && Shows(Pieces(s)[i][0])
  }

  lemma {:induction false} PiecesSkeleton(s: string)
    requires forall c :: c in s ==> !IsZeroWidth(c)
    ensures Kept(s)
    decreases |s|
  {
    hide Kept, Pieces, Skeleton, Joined, NoLead, IsZeroWidth, SkipBreaks, FirstGap;
    if FirstGap(s) == |s| {
      LastPiece(s);
    } else {
      var b := CutAtGap(s);
      var rest := SkipBreaks(s[FirstGap(s) + 2..]);
      PiecesSkeleton(rest);
      MorePieces(s, s[..FirstGap(s)], b, rest);
    }
  }

  lemma LastPiece(s: string)
    requires FirstGap(s) == |s| && forall c :: c in s ==> !IsZeroWidth(c)
    ensures Kept(s)
  {
    hide *;
    PiecesStep(s);
    PieceShows(s);
    assert s[..|s|] == s;
    FormedEmpty();
    TrimSkeleton(s, "");
    JoinedOne(Trim(s));
    OntoNothing("");
    SkeletonIs(s);
    SkeletonIs(Trim(s));
    if Trim(s) == "" {
      assert Pieces(s) == [];
    } else {
      assert Pieces(s) == [Trim(s)];
    }
    AreKept(s);
  }

  lemma MorePieces(s: string, p: string, b: string, rest: string)
    requires FirstGap(s) < |s| && (forall c :: c in s ==> !IsZeroWidth(c)) && Kept(rest)
    requires p == s[..FirstGap(s)] && rest == SkipBreaks(s[FirstGap(s) + 2..]) && s == p + (Gap + b + rest)
    requires forall i :: 0 <= i < |b| ==> b[i] == '\n'
    ensures Kept(s)
  {
    hide *;
    var more, y := Pieces(rest), Skeleton(rest);
    var g := if y == "" then "" else Gap + NoLead(y);
    PiecesStep(s);
    assert forall c :: c in p ==> c in s;
    PieceShows(p);
    KeptParts(rest);
    MoreShow(more);
    FormedEmpty();
    SkeletonIs(rest);
    OntoFormed(rest, "");
    TwoBreaks(y);
    GapBetween(s, p, b, rest, g);
    if Trim(p) != "" {
      assert Pieces(s) == [Trim(p)] + more;
      LaidOut(Trim(p), more, g, y);
    } else {
      assert Pieces(s) == more;
      OntoNothing(g);
      OntoNothing("");
    }
    AreKept(s);
  }

  lemma KeptParts(s: string)
    requires Kept(s)
    ensures Skeleton(Joined(Pieces(s))) == NoLead(Skeleton(s))
    ensures forall i :: 0 <= i < |Pieces(s)| ==> Pieces(s)[i] != "" && Shows(Pieces(s)[i][0])
  {
    hide Pieces, Skeleton, Joined, NoLead, Shows;
  }

  lemma AreKept(s: string)
    requires Skeleton(Joined(Pieces(s))) == NoLead(Skeleton(s))
    requires forall i :: 0 <= i < |Pieces(s)| ==> Pieces(s)[i] != "" && Shows(Pieces(s)[i][0])
    ensures Kept(s)
  {
    hide Pieces, Skeleton, Joined, NoLead, Shows;
  }

  /** The skeleton of a text whose first piece is `p`, and of that piece alone before the same gap. */
  lemma GapBetween(s: string, p: string, b: string, rest: string, g: string)
    requires s == p + (Gap + b + rest) && (forall i :: 0 <= i < |b| ==> b[i] == '\n')
    requires g == (if Skeleton(rest) == "" then "" else Gap + NoLead(Skeleton(rest)))
    ensures NoLead(Onto(Trim(p), g)) == NoLead(Skeleton(s))
    ensures Trim(p) != "" && !IsZeroWidth(Trim(p)[0]) ==> NoLead(Onto(Trim(p), g)) == Onto(Trim(p), g)
  {
    hide *;
    var y := Skeleton(rest);
    FormedEmpty();
    SkeletonIs(s);
    SkeletonIs(rest);
    OntoFormed(rest, "");
    OntoConcat(p, Gap + b + rest, "");
    OntoConcat(Gap + b, rest, "");
    BreaksBefore(b, y);
    OntoFormed(Gap + b, y);
    GapStarts(NoLead(y));
    TrimSkeleton(p, g);
  }

  lemma CutAtGap(s: string) returns (b: string)
    requires FirstGap(s) < |s|
    ensures var k, rest := FirstGap(s), SkipBreaks(s[FirstGap(s) + 2..]);
            s == s[..k] + (Gap + b + rest) && (forall c :: c in rest ==> c in s) && |rest| < |s|
    ensures forall i :: 0 <= i < |b| ==> b[i] == '\n'
  {
    var k := FirstGap(s);
    var tail := s[k + 2..];
    var rest := SkipBreaks(tail);
    SkippedBreaks(tail);
    hide FirstGap, SkipBreaks;
    b := tail[..|tail| - |rest|];
    assert tail == b + rest;
    GapAt(s, k);
    Regroup(s[..k], Gap, b, rest);
    forall c | c in rest
      ensures c in s
    {
      assert c in tail;
    }
  }

  lemma GapAt(s: string, k: nat)
    requires k + 1 < |s| && s[k] == '\n' && s[k + 1] == '\n'
    ensures s == s[..k] + Gap + s[k + 2..]
  {
  }

  lemma Regroup(a: string, gap: string, b: string, rest: string)
    ensures a + gap + (b + rest) == a + (gap + b + rest)
  {
  }

  lemma GapStarts(r: string)
    ensures "\n\n" <= Gap + r
  {
  }

  lemma FormedEmpty()
    ensures Formed("")
  {
  }

  lemma OntoNothing(r: string)
    ensures Onto("", r) == r && NoLead("") == ""
  {
  }

  lemma JoinedOne(p: string)
    ensures Joined([p]) == p && Joined([]) == "" && Skeleton("") == ""
  {
  }

  /** What a piece starts with when its text has no zero-width characters. */
  lemma PieceShows(p: string)
    requires forall c :: c in p ==> !IsZeroWidth(c)
    ensures Trim(p) != "" ==> Shows(Trim(p)[0]) && !IsZeroWidth(Trim(p)[0])
  {
    TrimMeaning(p);
    hide Trim;
    if Trim(p) != "" {
      assert Trim(p)[0] in p;
    }
  }

  lemma MoreShow(more: seq<string>)
    requires forall i :: 0 <= i < |more| ==> more[i] != "" && Shows(more[i][0])
    ensures more == [] <==> Skeleton(Joined(more)) == ""
  {
    if more != [] {
      assert Joined(more) != "" && Joined(more)[0] == more[0][0];
    }
  }

  lemma JoinedCons(p: string, more: seq<string>)
    requires more != []
    ensures Joined([p] + more) == p + Gap + Joined(more)
  {
    assert ([p] + more)[1..] == more;
  }

  lemma LaidOut(p: string, more: seq<string>, g: string, y: string)
    requires Formed(y) && Skeleton(Joined(more)) == NoLead(y) && (more == [] <==> NoLead(y) == "")
    requires g == (if y == "" then "" else Gap + NoLead(y))
    ensures Skeleton(Joined([p] + more)) == Onto(p, g)
  {
    hide *;
    TwoBreaks(y);
    if more == [] {
      JoinedOne(p);
      SkeletonIs(p);
      assert [p] + more == [p];
    } else {
      var rest := Joined(more);
      JoinedCons(p, more);
      Regroup(p, Gap, "", rest);
      assert Gap + "" == Gap && "" + rest == rest;
      SkeletonIs(p + (Gap + rest));
      SkeletonIs(rest);
      OntoConcat(p, Gap + rest, "");
      OntoConcat(Gap, rest, "");
      OntoGap(NoLead(y));
      TwoBreaks(NoLead(y));
    }
  }

  /**
    Splitting any text: laid out with blank lines, its paragraphs have all its words, in order, and between
    them the same kind of gap. None is lost, repeated or moved.
   */
  lemma ParagraphsKeepText(text: string)
    ensures Skeleton(Joined(SplitParagraphs(text))) == NoLead(Skeleton(text))
  {
    var s := NormalizeText(text);
    NormalizeIsNormal(text);
    NormalizeMeaning(text);
    SpecialFree(s);
    PiecesSkeleton(s);
    KeptParts(s);
    OntoFormed(text, "");
    TwoBreaks(Skeleton(text));
    hide NormalizeText, Pieces, Joined, Onto, NoLead;
  }

  /** And on paragraphs whose text is normalised already, it takes apart exactly what joining put together. */
  lemma SplitOfJoined(ps: seq<string>)
    requires Paragraphs(ps) && NormalizeText(Joined(ps)) == Joined(ps)
    ensures SplitParagraphs(Joined(ps)) == ps
  {
    hide NormalizeText;
    if ps == [] {
      PiecesStep("");
    } else {
      PiecesOfJoined(ps);
    }
  }

  // ----- the chunks, group by group -----

  /** Put chunks together again: take off what each opens with, split the rest, and collect the paragraphs. */
  function Reassemble(lead: string, chunks: seq<string>, overlap: int): seq<string>
    decreases |chunks|
  {
    if chunks == [] then []
    else
      (if lead <= chunks[0] then Pieces(chunks[0][|lead|..]) else [])
      + Reassemble(Lead(chunks[0], overlap), chunks[1..], overlap)
  }

  /** Each chunk is what the previous one leads with, then its own group of paragraphs. */
  ghost predicate Grouped(lead: string, chunks: seq<string>, groups: seq<seq<string>>, overlap: int)
    decreases |chunks|
  {
    && |chunks| == |groups|
    && (chunks != [] ==>
          && groups[0] != [] && chunks[0] == lead + Joined(groups[0])
          && Grouped(Lead(chunks[0], overlap), chunks[1..], groups[1..], overlap))
  }

  function Concat(groups: seq<seq<string>>): seq<string> {
    if groups == [] then [] else groups[0] + Concat(groups[1..])
  }

  lemma ConcatCons(group: seq<string>, more: seq<seq<string>>)
    ensures Concat([group] + more) == group + Concat(more)
  {
    assert ([group] + more)[1..] == more;
  }

  /** A chunk was closed exactly when the next paragraph would not have fitted. */
  ghost predicate Greedy(chunks: seq<string>, groups: seq<seq<string>>, maxSize: int)
    requires |chunks| == |groups|
  {
    && (forall i :: 0 < i < |chunks| ==>
          groups[i] != [] && |chunks[i - 1]| + |Gap| + |groups[i][0]| > maxSize)
    && (forall i :: 0 <= i < |chunks| && |groups[i]| > 1 ==> |chunks[i]| <= maxSize)
  }

  /** The groups behind the chunks, from a state whose `current` is `lead` and then `group`. */
  lemma {:induction false} GroupsFrom(ps: seq<string>, lead: string, group: seq<string>, maxSize: int, overlap: int)
    returns (groups: seq<seq<string>>)
    requires group != [] && Paragraphs(group + ps)
    requires |group| > 1 ==> |lead + Joined(group)| <= maxSize
    ensures var chunks := ChunkFrom(ps, lead + Joined(group), maxSize, overlap);
            && Grouped(lead, chunks, groups, overlap) && groups != []
            && Greedy(chunks, groups, maxSize)
            && groups[0] != [] && groups[0][0] == group[0] && Concat(groups) == group + ps
    decreases |ps|
  {
    hide *;
    var current := lead + Joined(group);
    ParagraphsSplit(group, ps);
    JoinedStartsVisible(group);
    if ps == [] {
      groups := [group];
      LastGroup(lead, group, maxSize, overlap);
      assert group + ps == group;
    } else {
      var p := ps[0];
      ChunkFromCases(ps, current, maxSize, overlap);
      JoinedSnoc(group, p);
      JoinedSnoc([], p);
      assert [] + [p] == [p] && [p] + ps[1..] == ps;
      if |current + Gap + p| <= maxSize {
        assert lead + Joined(group + [p]) == current + Gap + p;
        assert group + ps == group + [p] + ps[1..];
        groups := GroupsFrom(ps[1..], lead, group + [p], maxSize, overlap);
      } else {
        var next := Lead(current, overlap);
        var more := GroupsFrom(ps[1..], next, [p], maxSize, overlap);
        groups := [group] + more;
        ConcatCons(group, more);
        CloseGroup(lead, group, ChunkFrom(ps[1..], next + p, maxSize, overlap), more, p, maxSize, overlap);
      }
    }
  }

  lemma ParagraphsSplit(group: seq<string>, ps: seq<string>)
    requires Paragraphs(group + ps)
    ensures Paragraphs(group) && Paragraphs(ps)
  {
    hide Paragraph;
    assert forall i :: 0 <= i < |group| ==> group[i] == (group + ps)[i];
    assert forall i :: 0 <= i < |ps| ==> ps[i] == (group + ps)[|group| + i];
  }

  lemma LastGroup(lead: string, group: seq<string>, maxSize: int, overlap: int)
    requires group != [] && Joined(group) != "" && (|group| > 1 ==> |lead + Joined(group)| <= maxSize)
    ensures var chunks := ChunkFrom([], lead + Joined(group), maxSize, overlap);
            && Grouped(lead, chunks, [group], overlap) && Greedy(chunks, [group], maxSize)
            && Concat([group]) == group
  {
    hide Joined;
    hide Lead;
    ConcatCons(group, []);
    assert [group] + [] == [group];
  }

  lemma ChunkFromCases(ps: seq<string>, current: string, maxSize: int, overlap: int)
    requires ps != [] && current != ""
    ensures var candidate := current + Gap + ps[0];
            ChunkFrom(ps, current, maxSize, overlap)
            == if |candidate| <= maxSize then ChunkFrom(ps[1..], candidate, maxSize, overlap)
               else [current] + ChunkFrom(ps[1..], Lead(current, overlap) + ps[0], maxSize, overlap)
  {
    hide Lead;
  }

  /** Closing a chunk before the paragraph `p`, which opens the chunks that follow. */
  lemma CloseGroup(lead: string, group: seq<string>, chunks: seq<string>, more: seq<seq<string>>,
                   p: string, maxSize: int, overlap: int)
    requires group != [] && more != [] && more[0] != [] && more[0][0] == p
    requires Grouped(Lead(lead + Joined(group), overlap), chunks, more, overlap) && Greedy(chunks, more, maxSize)
    requires |lead + Joined(group)| + |Gap| + |p| > maxSize && (|group| > 1 ==> |lead + Joined(group)| <= maxSize)
    ensures Grouped(lead, [lead + Joined(group)] + chunks, [group] + more, overlap)
    ensures Greedy([lead + Joined(group)] + chunks, [group] + more, maxSize)
  {
    hide Lead;
    hide Joined;
    var all, groups := [lead + Joined(group)] + chunks, [group] + more;
    assert all[1..] == chunks && groups[1..] == more;
    forall i | 0 < i < |all|
      ensures groups[i] != [] && |all[i - 1]| + |Gap| + |groups[i][0]| > maxSize
    {
      if i > 1 {
        assert groups[i] == more[i - 1] && all[i - 1] == chunks[(i - 1) - 1];
      }
    }
    forall i | 0 <= i < |all| && |groups[i]| > 1
      ensures |all[i]| <= maxSize
    {
      if i > 0 {
        assert groups[i] == more[i - 1] && all[i] == chunks[i - 1];
      }
    }
  }

  lemma {:induction false} ReassembleGroups(lead: string, chunks: seq<string>, groups: seq<seq<string>>, overlap: int)
    requires Grouped(lead, chunks, groups, overlap) && Paragraphs(Concat(groups))
    ensures Reassemble(lead, chunks, overlap) == Concat(groups)
    decreases |chunks|
  {
    if chunks != [] {
      var rest := Concat(groups[1..]);
      assert Concat(groups) == groups[0] + rest;
      assert Paragraphs(groups[0]) by {
        assert forall i :: 0 <= i < |groups[0]| ==> groups[0][i] == Concat(groups)[i];
      }
      assert Paragraphs(rest) by {
        assert forall i :: 0 <= i < |rest| ==> rest[i] == Concat(groups)[|groups[0]| + i];
      }
      PiecesOfJoined(groups[0]);
      assert chunks[0][|lead|..] == Joined(groups[0]);
      ReassembleGroups(Lead(chunks[0], overlap), chunks[1..], groups[1..], overlap);
    }
  }

  /**
    Nothing is lost: the chunks are consecutive non-empty groups of the paragraphs, each behind the lead of
    the chunk before, closed only when full; and taking the leads off gives all paragraphs back in order.
   */
  lemma ChunksAreLossless(ps: seq<string>, maxSize: int, overlap: int) returns (groups: seq<seq<string>>)
    requires Paragraphs(ps)
    ensures var chunks := Chunks(ps, maxSize, overlap);
            && Grouped("", chunks, groups, overlap) && Concat(groups) == ps && Greedy(chunks, groups, maxSize)
            && Reassemble("", chunks, overlap) == ps
  {
    if ps == [] {
      groups := [];
    } else {
      assert Joined([ps[0]]) == ps[0] && "" + ps[0] == ps[0];
      assert [ps[0]] + ps[1..] == ps;
      groups := GroupsFrom(ps[1..], "", [ps[0]], maxSize, overlap);
    }
    ReassembleGroups("", Chunks(ps, maxSize, overlap), groups, overlap);
  }

  /** The same for a text: what the chunks of any text hold are its paragraphs, all of them, once and in order. */
  lemma TextIsLossless(text: string, maxSize: int, overlap: int)
    ensures Reassemble("", Chunks(SplitParagraphs(text), maxSize, overlap), overlap) == SplitParagraphs(text)
  {
    SplitYieldsParagraphs(text);
    var groups := ChunksAreLossless(SplitParagraphs(text), maxSize, overlap);
  }

  // ----- sizes -----

  function Longest(ps: seq<string>): nat {
    if ps == [] then 0 else if |ps[0]| > Longest(ps[1..]) then |ps[0]| else Longest(ps[1..])
  }

  /** With a positive overlap, a chunk leads with a non-empty suffix of itself of at most that length. */
  lemma LeadMeaning(current: string, overlap: int)
    requires overlap >= 1 && current != "" && !IsSpace(current[|current| - 1])
    ensures var tail := Tail(current, overlap);
            && tail != "" && |tail| <= overlap && |tail| <= |current| && tail == current[|current| - |tail|..]
            && Lead(current, overlap) == tail + Gap
  {
    var slice := SliceFromEnd(current, overlap);
    assert slice == current[|current| - |slice|..] && slice != "" && |slice| <= overlap;
    assert slice[|slice| - 1] == current[|current| - 1];
    TrimOfSuffix(slice);
    var tail := Tail(current, overlap);
    assert current[|current| - |slice|..][|slice| - |tail|..] == current[|current| - |tail|..];
  }

  /** With an overlap of 0 or below, it leads with itself, without its first characters. */
  lemma NegativeLead(current: string, overlap: int)
    requires overlap <= 0
    ensures -overlap < |current| ==> Tail(current, overlap) == Trim(current[-overlap..])
    ensures -overlap >= |current| ==> Tail(current, overlap) == ""
    ensures Lead(current, overlap) == if Tail(current, overlap) == "" then "" else Tail(current, overlap) + "\n\n"
  {
    TrimMeaning("");
    hide Trim;
  }

  lemma TrimOfSuffix(s: string)
    requires s != "" && !IsSpace(s[|s| - 1])
    ensures Trim(s) != "" && |Trim(s)| <= |s| && Trim(s) == s[|s| - |Trim(s)|..]
  {
    assert s[|s| - 1] in s;
    TrimMeaning(s);
    TrimStartMeaning(s);
    var t := TrimStart(s);
    assert t != "" && t[|t| - 1] == s[|s| - 1];
  }

  lemma {:induction false} SizesFrom(ps: seq<string>, current: string, maxSize: int, overlap: int, bound: int)
    requires overlap >= 1 && Paragraphs(ps) && (current != "" ==> !IsSpace(current[|current| - 1]))
    requires bound >= maxSize && bound >= overlap + 2 + Longest(ps) && |current| <= bound
    ensures forall i :: 0 <= i < |ChunkFrom(ps, current, maxSize, overlap)| ==>
              |ChunkFrom(ps, current, maxSize, overlap)[i]| <= bound
  {
    if ps != [] {
      assert Paragraph(ps[0]);
      var candidate := Candidate(current, ps[0]);
      assert candidate[|candidate| - 1] == ps[0][|ps[0]| - 1];
      if |candidate| <= maxSize || current == "" {
        SizesFrom(ps[1..], candidate, maxSize, overlap, bound);
      } else {
        LeadMeaning(current, overlap);
        var next := Lead(current, overlap) + ps[0];
        assert next[|next| - 1] == ps[0][|ps[0]| - 1];
        SizesFrom(ps[1..], next, maxSize, overlap, bound);
      }
    }
  }

  /** The size bound, for a positive overlap. */
  lemma ChunkSizes(ps: seq<string>, maxSize: int, overlap: int)
    requires overlap >= 1 && Paragraphs(ps)
    ensures forall i :: 0 <= i < |Chunks(ps, maxSize, overlap)| ==>
              |Chunks(ps, maxSize, overlap)[i]| <= Max(maxSize, overlap + 2 + Longest(ps))
  {
    SizesFrom(ps, "", maxSize, overlap, Max(maxSize, overlap + 2 + Longest(ps)));
  }

  /** With an overlap of 0, as the setting permits, each chunk leads with the whole chunk before it. */
  lemma ZeroOverlapRepeats(current: string)
    requires current != "" && IsTrimmed(current)
    ensures Lead(current, 0) == current + Gap
  {
    assert current[-0..] == current;
    TrimMeaning(current);
  }

  /** So the last chunk is the whole text, and the longest. */
  lemma {:induction false} ZeroChunksFrom(ps: seq<string>, group: seq<string>, maxSize: int)
    requires group != [] && Paragraphs(group + ps)
    ensures var chunks, whole := ChunkFrom(ps, Joined(group), maxSize, 0), Joined(group + ps);
            && chunks != [] && chunks[|chunks| - 1] == whole && |Joined(group)| <= |whole|
            && forall i :: 0 <= i < |chunks| ==> |chunks[i]| <= |whole|
    decreases |ps|
  {
    hide *;
    var current := Joined(group);
    ParagraphsSplit(group, ps);
    JoinedStartsVisible(group);
    if ps == [] {
      assert group + ps == group;
      ChunkFromNone(current, maxSize);
    } else {
      var p := ps[0];
      ChunkFromCases(ps, current, maxSize, 0);
      JoinedSnoc(group, p);
      assert group + ps == group + [p] + ps[1..];
      ZeroChunksFrom(ps[1..], group + [p], maxSize);
      VisibleEnds(current);
      ZeroOverlapRepeats(current);
    }
  }

  lemma VisibleEnds(s: string)
    requires s != "" && !IsSpace(s[0]) && !IsSpace(s[|s| - 1])
    ensures IsTrimmed(s)
  {
  }

  lemma ChunkFromNone(current: string, maxSize: int)
    requires current != ""
    ensures ChunkFrom([], current, maxSize, 0) == [current]
  {
  }

  lemma {:induction false} JoinedIsLonger(ps: seq<string>)
    requires ps != [] && Paragraphs(ps)
    ensures |ps| == 1 ==> |Joined(ps)| == Longest(ps)
    ensures |ps| > 1 ==> |Joined(ps)| > 2 + Longest(ps)
  {
    hide Paragraph;
    JoinedStartsVisible(ps);
    assert Paragraph(ps[0]);
    assert ps[0] != "" by {
      ParagraphShows(ps[0]);
    }
    if |ps| > 1 {
      assert Paragraphs(ps[1..]);
      JoinedStartsVisible(ps[1..]);
      JoinedIsLonger(ps[1..]);
    }
  }

  lemma ParagraphShows(p: string)
    requires Paragraph(p)
    ensures p != ""
  {
  }

  /** With overlap 0 the size bound holds exactly for a single paragraph and for a text that fits one chunk. */
  lemma ZeroOverlapBoundIff(ps: seq<string>, maxSize: int)
    requires Paragraphs(ps)
    ensures (forall i :: 0 <= i < |Chunks(ps, maxSize, 0)| ==>
               |Chunks(ps, maxSize, 0)[i]| <= Max(maxSize, 2 + Longest(ps)))
       <==> |ps| <= 1 || |Joined(ps)| <= maxSize
  {
    hide *;
    if ps == [] {
      NoParagraphs(maxSize);
    } else {
      JoinedOne(ps[0]);
      assert [ps[0]] + ps[1..] == ps;
      FirstParagraph(ps, maxSize, 0);
      JoinedIsLonger(ps);
      ZeroChunksFrom(ps[1..], [ps[0]], maxSize);
      LastIsLongest(Chunks(ps, maxSize, 0), |Joined(ps)|, Max(maxSize, 2 + Longest(ps)));
      MaxOf(maxSize, 2 + Longest(ps));
      if |ps| > 1 && |Joined(ps)| > maxSize {
        assert |Joined(ps)| > 2 + Longest(ps);
      }
    }
  }

  lemma NoParagraphs(maxSize: int)
    ensures Chunks([], maxSize, 0) == []
  {
  }

  lemma MaxOf(a: int, b: int)
    ensures Max(a, b) >= a && Max(a, b) >= b && (Max(a, b) == a || Max(a, b) == b)
  {
  }

  lemma LastIsLongest(chunks: seq<string>, longest: nat, bound: int)
    requires chunks != [] && |chunks[|chunks| - 1]| == longest
    requires forall i :: 0 <= i < |chunks| ==> |chunks[i]| <= longest
    ensures (forall i :: 0 <= i < |chunks| ==> |chunks[i]| <= bound) <==> longest <= bound
  {
  }

  lemma FirstParagraph(ps: seq<string>, maxSize: int, overlap: int)
    requires ps != []
    ensures Chunks(ps, maxSize, overlap) == ChunkFrom(ps[1..], ps[0], maxSize, overlap)
  {
  }

  /** Two paragraphs that do not fit together: the second chunk is both of them again. */
  lemma ZeroOverlapBreaks()
    ensures Paragraphs(["a", "b"]) && Chunks(["a", "b"], 3, 0) == ["a", "a\n\nb"]
    ensures |"a\n\nb"| > Max(3, 2 + Longest(["a", "b"]))
  {
    FirstParagraph(["a", "b"], 3, 0);
    assert ["a", "b"][1..] == ["b"] && ["b"][1..] == [];
    ChunkFromCases(["b"], "a", 3, 0);
    ZeroOverlapRepeats("a");
    assert "a" + Gap + "b" == "a\n\nb";
    ChunkFromNone("a\n\nb", 3);
  }

  /** What a lead can measure: never more than the whole chunk, and less by a negative overlap. */
  lemma LeadLength(current: string, overlap: int)
    ensures |Lead(current, overlap)| <= |current| + 2
    ensures overlap <= 0 ==> Lead(current, overlap) == "" || |Lead(current, overlap)| <= |current| + overlap + 2
  {
    TrimMeaning(SliceFromEnd(current, overlap));
    hide Trim;
  }

  /** Whatever the overlap, no chunk is longer than the whole text. */
  lemma {:induction false} WholeBoundFrom(ps: seq<string>, current: string, maxSize: int, overlap: int, bound: int)
    requires |current| + 2 * |ps| + Sum(ps) <= bound
    ensures forall i :: 0 <= i < |ChunkFrom(ps, current, maxSize, overlap)| ==>
              |ChunkFrom(ps, current, maxSize, overlap)[i]| <= bound
  {
    hide Lead;
    if ps != [] {
      LeadLength(current, overlap);
      if |Candidate(current, ps[0])| <= maxSize || current == "" {
        WholeBoundFrom(ps[1..], Candidate(current, ps[0]), maxSize, overlap, bound);
      } else {
        WholeBoundFrom(ps[1..], Lead(current, overlap) + ps[0], maxSize, overlap, bound);
      }
    }
  }

  function Sum(ps: seq<string>): nat {
    if ps == [] then 0 else |ps[0]| + Sum(ps[1..])
  }

  lemma {:induction false} JoinedSum(ps: seq<string>)
    ensures ps != [] ==> |Joined(ps)| == 2 * (|ps| - 1) + Sum(ps)
  {
    if |ps| > 1 {
      JoinedSum(ps[1..]);
    }
  }

  lemma WholeBound(ps: seq<string>, maxSize: int, overlap: int)
    ensures forall i :: 0 <= i < |Chunks(ps, maxSize, overlap)| ==> |Chunks(ps, maxSize, overlap)[i]| <= |Joined(ps)|
  {
    if ps != [] {
      FirstParagraph(ps, maxSize, overlap);
      JoinedSum(ps);
      WholeBoundFrom(ps[1..], ps[0], maxSize, overlap, |Joined(ps)|);
    }
  }

  /** The `i`-th chunk measures at most `base + i * growth`. */
  ghost predicate GrowBy(chunks: seq<string>, base: int, growth: int) {
    forall i :: 0 <= i < |chunks| ==> |chunks[i]| <= base + i * growth
  }

  lemma GrowthStep(current: string, more: seq<string>, base: int, growth: int)
    requires |current| <= base && GrowBy(more, base + growth, growth)
    ensures GrowBy([current] + more, base, growth)
  {
    forall i | 0 < i < |more| + 1
      ensures |more[i - 1]| <= base + i * growth
    {
      assert i * growth == growth + (i - 1) * growth;
    }
  }

  lemma GrowthEnds(current: string, maxSize: int, overlap: int, base: int, growth: int)
    requires |current| <= base
    ensures GrowBy(ChunkFrom([], current, maxSize, overlap), base, growth)
  {
  }

  lemma {:induction false} GrowthFrom(ps: seq<string>, current: string, maxSize: int, overlap: int,
                                      base: int, growth: int)
    requires overlap <= 0 && growth >= 0 && growth >= overlap + 2 + Longest(ps)
    requires base >= maxSize && base >= Longest(ps) && |current| <= base
    ensures GrowBy(ChunkFrom(ps, current, maxSize, overlap), base, growth)
    decreases |ps|
  {
    hide *;
    if ps == [] {
      GrowthEnds(current, maxSize, overlap, base, growth);
    } else {
      var p, next := ps[0], Lead(current, overlap) + ps[0];
      assert ps[0..] == ps;
      ChunkFromStep(ps, 0, current, maxSize, overlap);
      LongestOf(ps);
      LeadLength(current, overlap);
      CandidateFits(current, p);
      if |Candidate(current, p)| <= maxSize || current == "" {
        GrowthFrom(ps[1..], Candidate(current, p), maxSize, overlap, base, growth);
      } else {
        GrowthFrom(ps[1..], next, maxSize, overlap, base + growth, growth);
        GrowthStep(current, ChunkFrom(ps[1..], next, maxSize, overlap), base, growth);
      }
    }
  }

  lemma LongestOf(ps: seq<string>)
    requires ps != []
    ensures |ps[0]| <= Longest(ps) && Longest(ps[1..]) <= Longest(ps)
  {
  }

  lemma CandidateFits(current: string, p: string)
    ensures current == "" ==> Candidate(current, p) == p
  {
  }

  /**
    The sizes for an overlap of 0 or below, which the settings permit: each chunk may exceed the one before
    by what a paragraph and the blank line measure beyond the characters dropped from the front. So with at
    least that many dropped, only a single long paragraph exceeds the size asked for.
   */
  lemma NegativeOverlapSizes(ps: seq<string>, maxSize: int, overlap: int)
    requires overlap <= 0
    ensures var growth := Max(0, overlap + 2 + Longest(ps));
            forall i :: 0 <= i < |Chunks(ps, maxSize, overlap)| ==>
              |Chunks(ps, maxSize, overlap)[i]| <= Max(maxSize, Longest(ps)) + i * growth
    ensures -overlap >= 2 + Longest(ps) ==>
              forall i :: 0 <= i < |Chunks(ps, maxSize, overlap)| ==>
                |Chunks(ps, maxSize, overlap)[i]| <= Max(maxSize, Longest(ps))
  {
    GrowthFrom(ps, "", maxSize, overlap, Max(maxSize, Longest(ps)), Max(0, overlap + 2 + Longest(ps)));
    hide ChunkFrom, Longest;
  }

  // ----- the source's loop, and the records it returns -----

  datatype Chunk = Chunk(index: nat, content: string, contentNorm: string, charCount: nat, hash: string)

  ghost predicate RecordsOf(r: seq<Chunk>, chunks: seq<string>, sha256: string -> string) {
    && |r| == |chunks|
    && forall i :: 0 <= i < |r| ==> r[i] == RecordOf(i, chunks[i], sha256)
  }

  function RecordOf(i: nat, content: string, sha256: string -> string): Chunk {
    Chunk(i, content, NormalizeText(content), |NormalizeText(content)|, sha256(NormalizeText(content)))
  }

  /** `chunkText`, with the digest and the configured defaults as parameters. */
  method ChunkText(text: string, targetSize: int, overlapOption: int, defaultSize: int, defaultOverlap: int,
                   sha256: string -> string) returns (r: seq<Chunk>)
    ensures RecordsOf(r, Chunks(SplitParagraphs(text), Or(targetSize, defaultSize),
                      Or(overlapOption, defaultOverlap)), sha256)
  {
    var maxSize := Or(targetSize, defaultSize);
    var overlap := Or(overlapOption, defaultOverlap);
    var paragraphs := SplitParagraphs(text);
    var chunks := CloseChunks(paragraphs, maxSize, overlap);
    ChunksShow(text, maxSize, overlap);
    hide *;
    r := ChunkRecords(chunks, sha256);
  }

  /** Its loop over the paragraphs. */
  method CloseChunks(paragraphs: seq<string>, maxSize: int, overlap: int) returns (chunks: seq<string>)
    ensures chunks == Chunks(paragraphs, maxSize, overlap)
  {
    chunks := [];
    var current := "";
    assert paragraphs[0..] == paragraphs;
    hide Tail;
    hide ChunkFrom;
    for i := 0 to |paragraphs|
      invariant Chunks(paragraphs, maxSize, overlap) == chunks + ChunkFrom(paragraphs[i..], current, maxSize, overlap)
    {
      var paragraph := paragraphs[i];
      ChunkFromStep(paragraphs, i, current, maxSize, overlap);
      var candidate := Candidate(current, paragraph);
      if |candidate| <= maxSize || current == "" {
        current := candidate;
        continue;
      }
      chunks := chunks + [current];
      current := Lead(current, overlap) + paragraph;
    }
    NoneLeft(paragraphs, current, maxSize, overlap);
    if current != "" {
      chunks := chunks + [current];
    }
  }

  lemma ChunkFromStep(ps: seq<string>, i: nat, current: string, maxSize: int, overlap: int)
    requires i < |ps|
    ensures var candidate := Candidate(current, ps[i]);
            ChunkFrom(ps[i..], current, maxSize, overlap)
            == if |candidate| <= maxSize || current == "" then ChunkFrom(ps[i + 1..], candidate, maxSize, overlap)
               else [current] + ChunkFrom(ps[i + 1..], Lead(current, overlap) + ps[i], maxSize, overlap)
  {
    hide Tail;
    assert ps[i..][1..] == ps[i + 1..];
  }

  lemma NoneLeft(ps: seq<string>, current: string, maxSize: int, overlap: int)
    ensures ChunkFrom(ps[|ps|..], current, maxSize, overlap) == if current == "" then [] else [current]
  {
  }

  /** Its final map and filter; no chunk that shows something is dropped. */
  method ChunkRecords(chunks: seq<string>, sha256: string -> string) returns (r: seq<Chunk>)
    requires forall i :: 0 <= i < |chunks| ==> NormalizeText(chunks[i]) != ""
    ensures RecordsOf(r, chunks, sha256)
  {
    hide NormalizeText;
    r := [];
    for i := 0 to |chunks|
      invariant |r| == i
      invariant forall k :: 0 <= k < i ==> r[k] == RecordOf(k, chunks[k], sha256)
    {
      var normalized := NormalizeText(chunks[i]);
      if normalized != "" {
        r := r + [Chunk(i, chunks[i], normalized, |normalized|, sha256(normalized))];
      }
    }
  }

  /** No chunk normalises to nothing, so the final filter drops none. */
  lemma ChunksShow(text: string, maxSize: int, overlap: int)
    ensures var chunks := Chunks(SplitParagraphs(text), maxSize, overlap);
            forall i :: 0 <= i < |chunks| ==> NormalizeText(chunks[i]) != ""
  {
    var ps := SplitParagraphs(text);
    SplitYieldsParagraphs(text);
    NormalizeIsNormal(text);
    SpecialFree(NormalizeText(text));
    PieceChars(SplitGaps(NormalizeText(text)), NormalizeText(text));
    SplitChars(NormalizeText(text), NormalizeText(text));
    forall i | 0 <= i < |ps|
      ensures Shows(ps[i][0])
    {
      assert Paragraph(ps[i]) && ps[i][0] in ps[i];
    }
    ShowFrom(ps, "", maxSize, overlap);
  }

  lemma {:induction false} SpecialFree(s: string)
    requires NoSpecial(s)
    ensures forall c :: c in s ==> !IsZeroWidth(c)
  {
    if s != "" {
      SpecialFree(s[1..]);
      assert forall c :: c in s ==> c == s[0] || c in s[1..];
    }
  }

  lemma {:induction false} SplitChars(s: string, whole: string)
    requires forall c :: c in s ==> c in whole
    ensures forall i, c :: 0 <= i < |SplitGaps(s)| && c in SplitGaps(s)[i] ==> c in whole
    decreases |s|
  {
    var k := FirstGap(s);
    if k < |s| {
      SkipBreaksChars(s[k + 2..]);
      SplitChars(SkipBreaks(s[k + 2..]), whole);
    }
  }

  lemma {:induction false} SkipBreaksChars(s: string)
    ensures forall c :: c in SkipBreaks(s) ==> c in s
  {
    if s != "" && s[0] == '\n' {
      SkipBreaksChars(s[1..]);
    }
  }

  lemma {:induction false} PieceChars(parts: seq<string>, whole: string)
    ensures (forall i, c :: 0 <= i < |parts| && c in parts[i] ==> c in whole) ==>
              forall i, c :: 0 <= i < |TrimmedParts(parts)| && c in TrimmedParts(parts)[i] ==> c in whole
  {
    if parts != [] {
      PieceChars(parts[1..], whole);
      TrimMeaning(parts[0]);
      assert forall c :: c in Trim(parts[0]) ==> c in parts[0];
    }
  }

  lemma {:induction false} ShowFrom(ps: seq<string>, current: string, maxSize: int, overlap: int)
    requires forall i :: 0 <= i < |ps| ==> ps[i] != "" && Shows(ps[i][0])
    requires current != "" ==> exists c :: c in current && Shows(c)
    ensures forall i :: 0 <= i < |ChunkFrom(ps, current, maxSize, overlap)| ==>
              NormalizeText(ChunkFrom(ps, current, maxSize, overlap)[i]) != ""
  {
    if current != "" {
      NormalizeEmpty(current);
    }
    if ps != [] {
      var candidate, next := Candidate(current, ps[0]), Lead(current, overlap) + ps[0];
      assert ps[0][0] in candidate && ps[0][0] in next;
      if |candidate| <= maxSize || current == "" {
        ShowFrom(ps[1..], candidate, maxSize, overlap);
      } else {
        ShowFrom(ps[1..], next, maxSize, overlap);
      }
    }
  }
}
