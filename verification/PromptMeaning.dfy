/**
  What trimming and the prompt governor of PromptBudget keep: a text that fits is left whole, a longer one
  keeps its priority lines, its head and its tail, and a prompt that fits is the raw one.
 */
module PromptMeaning {
  import opened Basics
  import opened JsText
  import opened LineBreaks
  import opened TextLists
  import opened PromptBudget

  // ----- lines -----

  /** Splitting at line breaks and joining with them are inverse. */
  lemma {:induction false} SplitLinesMeaning(s: string)
    ensures JoinLines(SplitLines(s)) == s && forall l :: l in SplitLines(s) ==> '\n' !in l
  {
    if s != "" {
      var r := SplitLines(s[1..]);
      SplitLinesMeaning(s[1..]);
      hide Trim;
      if s[0] == '\n' {
        JoinLinesCons("", r);
      } else {
        SameJoin(s[0], r);
      }
    }
  }

  lemma JoinLinesCons(l: string, r: seq<string>)
    requires r != []
    ensures JoinLines([l] + r) == l + "\n" + JoinLines(r)
  {
    assert ([l] + r)[1..] == r;
  }

  lemma SameJoin(c: char, r: seq<string>)
    requires r != []
    ensures JoinLines([[c] + r[0]] + r[1..]) == [c] + JoinLines(r)
  {
    if |r| > 1 {
      JoinLinesCons([c] + r[0], r[1..]);
      assert r == [r[0]] + r[1..];
      JoinLinesCons(r[0], r[1..]);
    }
  }

  /** The lines of a text are trimmed, without the blank ones. */
  lemma {:induction false} TrimAllMeaning(lines: seq<string>)
    ensures forall x :: x in TrimAll(lines) <==> x != "" && exists l :: l in lines && Trim(l) == x
  {
    hide Trim;
    if lines != [] {
      TrimAllMeaning(lines[1..]);
      assert lines == [lines[0]] + lines[1..];
      forall x
        ensures x in TrimAll(lines) <==> x != "" && exists l :: l in lines && Trim(l) == x
      {
        if l :| l in lines && Trim(l) == x {
          assert l == lines[0] || l in lines[1..];
        }
      }
    }
  }

  /** And stand in their order. */
  lemma {:induction false} TrimAllOrder(a: seq<string>, b: seq<string>)
    ensures TrimAll(a + b) == TrimAll(a) + TrimAll(b)
  {
    hide Trim;
    if a == [] {
      assert a + b == b;
    } else {
      TrimAllOrder(a[1..], b);
      assert (a + b)[1..] == a[1..] + b;
      hide *;
      TrimAllHead(a);
      TrimAllHead(a + b);
      Regroup(if Trim(a[0]) == "" then [] else [Trim(a[0])], TrimAll(a[1..]), TrimAll(b));
    }
  }

  lemma TrimAllHead(lines: seq<string>)
    requires lines != []
    ensures TrimAll(lines) == (if Trim(lines[0]) == "" then [] else [Trim(lines[0])]) + TrimAll(lines[1..])
  {
    hide Trim;
  }

  lemma {:induction false} FilterMeaning(lines: seq<string>, keep: string -> bool)
    ensures forall x :: x in Filter(lines, keep) <==> x in lines && keep(x)
  {
    if lines != [] {
      FilterMeaning(lines[1..], keep);
      assert lines == [lines[0]] + lines[1..];
    }
  }

  lemma {:induction false} FilterOrder(a: seq<string>, b: seq<string>, keep: string -> bool)
    ensures Filter(a + b, keep) == Filter(a, keep) + Filter(b, keep)
  {
    if a == [] {
      assert a + b == b;
    } else {
      FilterOrder(a[1..], b, keep);
      assert (a + b)[1..] == a[1..] + b;
      hide *;
      FilterHead(a, keep);
      FilterHead(a + b, keep);
      Regroup(if keep(a[0]) then [a[0]] else [], Filter(a[1..], keep), Filter(b, keep));
    }
  }

  lemma FilterHead(lines: seq<string>, keep: string -> bool)
    requires lines != []
    ensures Filter(lines, keep) == (if keep(lines[0]) then [lines[0]] else []) + Filter(lines[1..], keep)
  {
  }

  /** A line has priority when it is a heading, or has one of the keywords in it, or is one of the first six. */
  lemma PriorityMeaning(rules: Rules, lines: seq<string>, keywords: seq<string>)
    ensures forall x :: x in PriorityLines(rules, lines, keywords) <==>
              && x in lines
              && (rules.isHeading(x)
                  || (exists k :: k in keywords && k != "" && Includes(rules.lower(x), k))
                  || exists i :: 0 <= i < |lines| && i < 6 && lines[i] == x)
    ensures var r := PriorityLines(rules, lines, keywords);
            && Filter(lines, rules.isHeading) <= r
            && |Take(lines, 6)| <= |r| && r[|r| - |Take(lines, 6)|..] == Take(lines, 6)
  {
    var mentions := line => Mentions(rules, keywords, line);
    var headings := Filter(lines, rules.isHeading);
    FilterMeaning(lines, rules.isHeading);
    FilterMeaning(lines, mentions);
    TakeMeaning(lines, 6);
    hide Filter;
    assert PriorityLines(rules, lines, keywords) == headings + Filter(lines, mentions) + Take(lines, 6);
    hide PriorityLines;
    forall x
      ensures mentions(x) <==> exists k :: k in keywords && k != "" && Includes(rules.lower(x), k)
    {
    }
  }

  lemma TakeMeaning(lines: seq<string>, n: nat)
    ensures forall x :: x in Take(lines, n) <==> exists i :: 0 <= i < |lines| && i < n && lines[i] == x
  {
    var r := Take(lines, n);
    forall i | 0 <= i < |lines| && i < n
      ensures r[i] == lines[i]
    {
    }
  }

  /** What lines cost, with one each for a break. */
  function Cost(lines: seq<string>): nat {
    if lines == [] then 0 else |lines[0]| + 1 + Cost(lines[1..])
  }

  /** `kept` is the longest beginning of `lines` within the budget. */
  ghost predicate LongestFit(kept: seq<string>, lines: seq<string>, budget: int) {
    && kept <= lines && (kept != [] ==> Cost(kept) <= budget)
    && (kept != lines ==> Cost(lines[..|kept| + 1]) > budget)
  }

  lemma {:induction false} FittingMeaning(lines: seq<string>, used: nat, budget: int)
    ensures LongestFit(Fitting(lines, used, budget), lines, budget - used)
  {
    var r := Fitting(lines, used, budget);
    if lines == [] {
    } else if used + |lines[0]| + 1 > budget {
      assert lines[..1] == [lines[0]] && lines[..1][1..] == [];
    } else {
      var rest := Fitting(lines[1..], used + |lines[0]| + 1, budget);
      FittingMeaning(lines[1..], used + |lines[0]| + 1, budget);
      assert r == [lines[0]] + rest && r[1..] == rest && lines == [lines[0]] + lines[1..];
      if r != lines {
        assert lines[..|r| + 1][1..] == lines[1..][..|rest| + 1];
      }
      if rest == [] {
        assert Cost(r) == |lines[0]| + 1;
      }
    }
  }

  // ----- what is left of a long text -----

  /** The head begins the text, holds all of its first 60 characters and first 55%, and little more than that. */
  lemma HeadMeaning(text: string, maxChars: int)
    requires IsTrimmed(text) && text != ""
    ensures var head := Head(text, maxChars);
            && head <= text && (|head| <= 60 || 100 * |head| <= 55 * maxChars)
            && forall i :: |head| <= i < |text| && (i < 60 || 100 * (i + 1) <= 55 * maxChars) ==> IsSpace(text[i])
  {
    var n := Max(60, maxChars * 55 / 100);
    var window := if n < |text| then text[..n] else text;
    FrontTrim(window);
  }

  /** A text that starts visibly loses only blanks at its end. */
  lemma FrontTrim(s: string)
    requires s != "" && !IsSpace(s[0])
    ensures Trim(s) <= s && forall i :: |Trim(s)| <= i < |s| ==> IsSpace(s[i])
  {
    TrimEndMeaning(s);
    assert TrimStart(s) == s;
  }

  lemma BackTrim(s: string)
    requires s != "" && !IsSpace(s[|s| - 1])
    ensures |Trim(s)| <= |s| && Trim(s) == s[|s| - |Trim(s)|..]
    ensures forall i :: 0 <= i < |s| - |Trim(s)| ==> IsSpace(s[i])
  {
    TrimStartMeaning(s);
    var t := TrimStart(s);
    assert |t| > 0;
    assert t[|t| - 1] == s[|s| - 1];
  }

  /** The tail ends the text, and holds all of its last 40 characters and last 20%. */
  lemma TailMeaning(text: string, maxChars: int)
    requires IsTrimmed(text) && text != ""
    ensures var tail := TailWindow(text, maxChars);
            && |tail| <= |text| && tail == text[|text| - |tail|..]
            && (|tail| <= 40 || 100 * |tail| <= 20 * maxChars)
            && forall i :: 0 <= i < |text| - |tail| && (|text| - i <= 40 || 100 * (|text| - i) <= 20 * maxChars) ==>
                 IsSpace(text[i])
  {
    var n := Max(40, maxChars * 20 / 100);
    var window := if n < |text| then text[|text| - n..] else text;
    BackTrim(window);
    assert forall i :: 0 <= i < |window| ==> window[i] == text[|text| - |window| + i];
  }

  lemma {:induction false} NormalizedLines(lines: seq<string>)
    requires forall l :: l in lines ==> '\n' !in l
    ensures forall x :: x in Normalized(lines) ==> x != "" && '\n' !in x && NormalizeText(x) == x
  {
    hide NormalizeText;
    if lines != [] {
      var last := lines[|lines| - 1];
      NormalizedLines(lines[..|lines| - 1]);
      PassChars(last);
      NormalizeIsNormal(last);
      NoBreakNoPair(NormalizeText(last));
      NormalStays(NormalizeText(last));
    }
  }

  lemma {:induction false} NoBreakNoPair(s: string)
    requires '\n' !in s
    ensures NoCrLf(s)
  {
    if s != "" {
      NoBreakNoPair(s[1..]);
    }
  }

  /** The normalised keywords in lower case, and the distinct priority lines of a text. */
  function Priority(rules: Rules, text: string, keywords: seq<string>): seq<string> {
    Dedup(Normalized(PriorityLines(rules, TrimAll(SplitLines(text)),
                                   LowerAll(Dedup(Normalized(keywords)), rules.lower))))
  }

  /**
    Before the cut, a long text is: the longest beginning of its priority lines that fits, then its head, then
    its tail, each normalised and none twice.
   */
  lemma SummaryMeaning(rules: Rules, text: string, maxChars: int, keywords: seq<string>, preserveTail: bool)
    returns (kept: seq<string>, parts: seq<string>)
    ensures Summary(rules, text, maxChars, keywords, preserveTail) == JoinLines(parts)
    ensures LongestFit(kept, Priority(rules, text, keywords), Max(80, maxChars - 24))
    ensures kept <= parts && forall i, j :: 0 <= i < j < |parts| ==> parts[i] != parts[j]
    ensures forall x :: x in parts <==>
              x in kept
              || (x != "" && (x == NormalizeText(Head(text, maxChars))
                              || (preserveTail && x == NormalizeText(TailWindow(text, maxChars)))))
  {
    var lines := TrimAll(SplitLines(text));
    var all := PriorityLines(rules, lines, LowerAll(Dedup(Normalized(keywords)), rules.lower));
    kept := Fitting(Dedup(Normalized(all)), 0, Max(80, maxChars - 24));
    var head, tail := Head(text, maxChars), if preserveTail then [TailWindow(text, maxChars)] else [];
    parts := Dedup(Normalized(kept + [head] + tail));
    hide *;
    SummaryIs(rules, text, maxChars, keywords, preserveTail);
    FittingMeaning(Dedup(Normalized(all)), 0, Max(80, maxChars - 24));
    PriorityIs(rules, text, keywords);
    KeptLines(rules, text, keywords, kept);
    PartsOf(kept, head, tail);
    TailPart(text, maxChars, preserveTail);
  }

  lemma PriorityIs(rules: Rules, text: string, keywords: seq<string>)
    ensures Priority(rules, text, keywords)
         == Dedup(Normalized(PriorityLines(rules, TrimAll(SplitLines(text)),
                                           LowerAll(Dedup(Normalized(keywords)), rules.lower))))
  {
  }

  lemma TailPart(text: string, maxChars: int, preserveTail: bool)
    ensures var tail := if preserveTail then [TailWindow(text, maxChars)] else [];
            forall x :: x != "" ==>
              (x in Normalized(tail) <==> preserveTail && x == NormalizeText(TailWindow(text, maxChars)))
  {
    hide NormalizeText, TailWindow;
    NormalizedOne(TailWindow(text, maxChars));
  }

  lemma SummaryIs(rules: Rules, text: string, maxChars: int, keywords: seq<string>, preserveTail: bool)
    ensures var kept := Fitting(Priority(rules, text, keywords), 0, Max(80, maxChars - 24));
            var tail := if preserveTail then [TailWindow(text, maxChars)] else [];
            Summary(rules, text, maxChars, keywords, preserveTail)
            == JoinLines(Dedup(Normalized(kept + [Head(text, maxChars)] + tail)))
  {
    hide Fitting, Dedup, Normalized, JoinLines, Head, TailWindow, PriorityLines, LowerAll, TrimAll, SplitLines;
  }

  /** The priority lines are settled: normalising changes none, and no two are equal. */
  lemma KeptLines(rules: Rules, text: string, keywords: seq<string>, kept: seq<string>)
    requires kept <= Priority(rules, text, keywords)
    ensures Settled(kept) && forall i, j :: 0 <= i < j < |kept| ==> kept[i] != kept[j]
  {
    var lines := TrimAll(SplitLines(text));
    var all := PriorityLines(rules, lines, LowerAll(Dedup(Normalized(keywords)), rules.lower));
    SplitLinesMeaning(text);
    TrimAllMeaning(SplitLines(text));
    PriorityMeaning(rules, lines, LowerAll(Dedup(Normalized(keywords)), rules.lower));
    forall l | l in all
      ensures '\n' !in l
    {
      assert l in lines;
      var raw :| raw in SplitLines(text) && Trim(raw) == l;
      TrimMeaning(raw);
    }
    NormalizedLines(all);
    DedupMeaning(Normalized(all));
    assert Priority(rules, text, keywords) == Dedup(Normalized(all));
    hide *;
    assert forall i :: 0 <= i < |kept| ==> kept[i] in Priority(rules, text, keywords);
    AreSettled(kept);
  }

  lemma AreSettled(xs: seq<string>)
    requires forall i :: 0 <= i < |xs| ==> xs[i] != "" && NormalizeText(xs[i]) == xs[i]
    ensures Settled(xs)
  {
    hide NormalizeText;
  }

  lemma PartsOf(kept: seq<string>, head: string, tail: seq<string>)
    requires Settled(kept) && forall i, j :: 0 <= i < j < |kept| ==> kept[i] != kept[j]
    ensures var parts := Dedup(Normalized(kept + [head] + tail));
            && kept <= parts && (forall i, j :: 0 <= i < j < |parts| ==> parts[i] != parts[j])
            && forall x :: x in parts <==> x in kept || (x != "" && (x == NormalizeText(head) || x in Normalized(tail)))
  {
    hide *;
    var more := Normalized([head] + tail);
    NormalizedConcat(kept, [head] + tail);
    assert kept + [head] + tail == kept + ([head] + tail);
    SettledStays(kept);
    DistinctStays(kept);
    DedupTwice(kept, more);
    DedupMeaning(kept + more);
    NormalizedConcat([head], tail);
    NormalizedOne(head);
    NormalizedNonBlank(tail);
  }

  lemma NormalizedOne(head: string)
    ensures Normalized([head]) == if NormalizeText(head) == "" then [] else [NormalizeText(head)]
  {
    hide NormalizeText;
    assert [head][..0] == [];
  }

  // ----- trimming -----

  /**
    What trimming leaves: a text that fits as it is; of a longer one the summary when that fits, and otherwise
    the longest beginning of the summary that ends visibly and leaves room for an ellipsis.
   */
  lemma TrimTextMeaning(rules: Rules, value: string, maxChars: int, keywords: seq<string>, preserveTail: bool)
    ensures var r, text := TrimText(rules, value, maxChars, keywords, preserveTail), NormalizeText(value);
            && (|text| <= maxChars ==> r == text)
            && (text != "" && |text| > maxChars ==>
                  var joined := Summary(rules, text, maxChars, keywords, preserveTail);
                  && (|joined| <= maxChars ==> r == joined)
                  && (|joined| > maxChars ==>
                        && r != "" && r[|r| - 1] == '\U{2026}' && r[..|r| - 1] <= joined
                        && |r| <= Max(1, maxChars)
                        && forall i :: |r| - 1 <= i < maxChars - 1 ==> IsSpace(joined[i])))
  {
    hide *;
    var text := NormalizeText(value);
    TrimTextIs(rules, value, maxChars, keywords, preserveTail);
    if text != "" && |text| > maxChars {
      var joined := Summary(rules, text, maxChars, keywords, preserveTail);
      if |joined| > maxChars {
        SummaryStarts(rules, value, maxChars, keywords, preserveTail);
        CutMeaning(joined, maxChars);
      }
    }
  }

  lemma TrimTextIs(rules: Rules, value: string, maxChars: int, keywords: seq<string>, preserveTail: bool)
    ensures var text := NormalizeText(value);
            TrimText(rules, value, maxChars, keywords, preserveTail)
            == if |text| <= maxChars || text == "" then text
               else if |Summary(rules, text, maxChars, keywords, preserveTail)| <= maxChars
               then Summary(rules, text, maxChars, keywords, preserveTail)
               else Cut(Summary(rules, text, maxChars, keywords, preserveTail), maxChars)
  {
    hide NormalizeText, Summary, Cut;
  }

  lemma CutMeaning(joined: string, maxChars: int)
    requires joined != "" && !IsSpace(joined[0]) && |joined| > maxChars
    ensures var r := Cut(joined, maxChars);
            && r != "" && r[|r| - 1] == '\U{2026}' && r[..|r| - 1] <= joined && |r| <= Max(1, maxChars)
            && forall i :: |r| - 1 <= i < maxChars - 1 ==> IsSpace(joined[i])
  {
    var n := Max(0, maxChars - 1);
    var window := joined[..n];
    CutIs(joined, maxChars);
    hide *;
    if window != "" {
      FrontTrim(window);
    } else {
      NothingTrimmed();
    }
    CutEnds(joined, n, Trim(window));
  }

  lemma CutIs(joined: string, maxChars: int)
    requires |joined| > maxChars
    ensures var n := Max(0, maxChars - 1); n <= |joined| && Cut(joined, maxChars) == Trim(joined[..n]) + "\U{2026}"
    ensures maxChars >= 1 ==> Max(0, maxChars - 1) == maxChars - 1 && Max(1, maxChars) == maxChars
    ensures maxChars < 1 ==> Max(0, maxChars - 1) == 0 && Max(1, maxChars) == 1
  {
    hide Trim;
    assert |joined| == 0 ==> joined[..0] == joined;
  }

  lemma NothingTrimmed()
    ensures Trim("") == ""
  {
  }

  lemma CutEnds(joined: string, n: nat, t: string)
    requires n <= |joined| && t <= joined[..n] && forall i :: |t| <= i < n ==> IsSpace(joined[..n][i])
    ensures var r := t + "\U{2026}";
            && r != "" && r[|r| - 1] == '\U{2026}' && r[..|r| - 1] == t <= joined && |r| <= n + 1
            && forall i :: |r| - 1 <= i < n ==> IsSpace(joined[i])
  {
    hide IsSpace;
    assert (t + "\U{2026}")[..|t|] == t;
  }

  /** The summary of a text starts with a visible character. */
  lemma SummaryStarts(rules: Rules, value: string, maxChars: int, keywords: seq<string>, preserveTail: bool)
    requires NormalizeText(value) != ""
    ensures var s := Summary(rules, NormalizeText(value), maxChars, keywords, preserveTail); s != "" && !IsSpace(s[0])
  {
    hide *;
    var text := NormalizeText(value);
    var kept, parts := SummaryMeaning(rules, text, maxChars, keywords, preserveTail);
    SummaryShows(rules, value, maxChars, keywords, preserveTail);
    FitStarts(kept, Priority(rules, text, keywords), Max(80, maxChars - 24));
    KeptLines(rules, text, keywords, kept);
    NoLines();
    if parts != [] {
      assert parts[0] in parts;
      StartOfPart(kept, parts[0], Head(text, maxChars), TailWindow(text, maxChars));
      JoinLinesStarts(parts);
    }
  }

  lemma FitStarts(kept: seq<string>, lines: seq<string>, budget: int)
    requires LongestFit(kept, lines, budget)
    ensures kept <= lines
  {
  }

  lemma NoLines()
    ensures JoinLines([]) == ""
  {
  }

  lemma StartOfPart(kept: seq<string>, x: string, head: string, tail: string)
    requires Settled(kept) && (x in kept || (x != "" && (x == NormalizeText(head) || x == NormalizeText(tail))))
    ensures x != "" && !IsSpace(x[0])
  {
    hide NormalizeText;
    if x in kept {
      NormalizeIsNormal(x);
    }
    NormalizeIsNormal(head);
    NormalizeIsNormal(tail);
  }

  lemma JoinLinesStarts(lines: seq<string>)
    requires lines != [] && lines[0] != ""
    ensures JoinLines(lines) != "" && JoinLines(lines)[0] == lines[0][0]
  {
  }

  // ----- sections -----

  /** Whether the full text or the summary comes first in a stage, and the limit that a section sets for it. */
  function Chosen(s: Section, stage: Stage): string {
    var full, summary := NormalizeText(s.text), NormalizeText(s.summaryText);
    if full == "" then summary else if summary == "" || stage == Normal then full else summary
  }

  function OwnLimit(s: Section, stage: Stage): int {
    if stage == Rolling then s.rollingMaxChars else if stage == Emergency then s.emergencyMaxChars else 0
  }

  /** What a section contributes: the chosen text, trimmed to the smaller of its budget and its own limit, if any. */
  lemma CompactMeaning(rules: Rules, s: Section, stage: Stage, maxChars: int)
    ensures var r, text, own := CompactSection(rules, s, stage, maxChars), Chosen(s, stage), OwnLimit(s, stage);
            && (stage == Emergency && !s.required ==> r == "")
            && (stage != Emergency || s.required ==>
                  && (text == "" ==> r == "")
                  && (text != "" && (own == 0 || own >= maxChars) ==>
                        r == TrimText(rules, text, maxChars, s.keywords, true))
                  && (text != "" && own != 0 && own <= maxChars ==> r == TrimText(rules, text, own, s.keywords, true)))
  {
    hide NormalizeText, TrimText;
  }

  /** A section that fits its budget is left whole: normalising and compacting keep its text. */
  lemma SectionWhole(rules: Rules, s: Section, stage: Stage, maxChars: int)
    requires Stable(s.text) && Stable(s.summaryText) && (stage == Emergency ==> s.required)
    requires var n := SectionBudget(s, maxChars);
             |Chosen(s, stage)| <= n && (OwnLimit(s, stage) != 0 ==> |Chosen(s, stage)| <= OwnLimit(s, stage))
    ensures Compacted(rules, s, stage, maxChars) == Chosen(s, stage)
  {
    hide *;
    var n, own := SectionBudget(s, maxChars), OwnLimit(s, stage);
    BaseKeeps(s, stage);
    CompactedIs(rules, s, stage, maxChars);
    CompactMeaning(rules, Base(s), stage, n);
    var text := Chosen(s, stage);
    TrimTextIs(rules, text, if own != 0 && own <= n then own else n, s.keywords, true);
  }

  lemma CompactedIs(rules: Rules, s: Section, stage: Stage, maxChars: int)
    ensures Compacted(rules, s, stage, maxChars) == CompactSection(rules, Base(s), stage, SectionBudget(s, maxChars))
  {
    hide CompactSection, Base;
  }

  lemma BaseKeeps(s: Section, stage: Stage)
    requires Stable(s.text) && Stable(s.summaryText)
    ensures Chosen(Base(s), stage) == Chosen(s, stage) == NormalizeText(Chosen(s, stage))
    ensures OwnLimit(Base(s), stage) == OwnLimit(s, stage)
    ensures Base(s).required == s.required && Base(s).keywords == s.keywords
  {
    IdempotentIff(s.text);
    IdempotentIff(s.summaryText);
    hide NormalizeText;
  }

  /** The raw prompt: the sections with a full text, each behind its label, in order. */
  lemma {:induction false} RawBlocksMeaning(before: seq<Section>, after: seq<Section>)
    ensures RawBlocks(before + after) == RawBlocks(before) + RawBlocks(after)
    ensures |before| == 1 ==>
              RawBlocks(before) == if NormalizeText(before[0].text) == "" then []
                                   else [before[0].title + ":\n" + NormalizeText(before[0].text)]
  {
    hide *;
    NoRawBlocks();
    if |before| == 1 {
      RawBlocksLast(before);
      assert before[..0] == [];
    }
    if after == [] {
      assert before + after == before;
    } else {
      var n := |after| - 1;
      RawBlocksMeaning(before, after[..n]);
      RawBlocksLast(after);
      RawBlocksLast(before + after);
      assert (before + after)[..|before| + n] == before + after[..n];
      var s := after[n];
      Regroup(RawBlocks(before), RawBlocks(after[..n]),
              if NormalizeText(s.text) == "" then [] else [s.title + ":\n" + NormalizeText(s.text)]);
    }
  }

  lemma NoRawBlocks()
    ensures RawBlocks([]) == []
  {
  }

  lemma RawBlocksLast(sections: seq<Section>)
    requires sections != []
    ensures var s := sections[|sections| - 1];
            RawBlocks(sections)
            == RawBlocks(sections[..|sections| - 1])
               + (if NormalizeText(s.text) == "" then [] else [s.title + ":\n" + NormalizeText(s.text)])
  {
    hide NormalizeText;
  }

  // ----- the stage -----

  /** The stage goes by the estimated tokens of the raw prompt: the highest threshold that they reach. */
  lemma StageMeaning(sections: seq<Section>, maxTokens: int, t: Thresholds)
    requires maxTokens > 0 && t.light <= t.rolling <= t.emergency
    ensures var tokens := EstimateTokens(JoinBlocks(RawBlocks(sections))) as real;
            var stage, m := StageOf(sections, maxTokens, t), maxTokens as real;
            && (stage == Emergency <==> tokens >= t.emergency * m)
            && (stage == Rolling <==> t.rolling * m <= tokens < t.emergency * m)
            && (stage == Light <==> t.light * m <= tokens < t.rolling * m)
            && (stage == Normal <==> tokens < t.light * m)
  {
    hide EstimateTokens, JoinBlocks, RawBlocks;
    var tokens, m := EstimateTokens(JoinBlocks(RawBlocks(sections))) as real, maxTokens as real;
    Quotient(tokens, m, t.light);
    Quotient(tokens, m, t.rolling);
    Quotient(tokens, m, t.emergency);
    Scaled(t.light, t.rolling, m);
    Scaled(t.rolling, t.emergency, m);
  }

  lemma Quotient(n: real, m: real, x: real)
    requires m > 0.0
    ensures n / m >= x <==> n >= x * m
  {
    assert n == n / m * m;
    if n / m >= x {
      Scaled(x, n / m, m);
    } else {
      assert (x - n / m) * m > 0.0;
    }
  }

  lemma Scaled(x: real, y: real, m: real)
    requires x <= y && m > 0.0
    ensures x * m <= y * m
  {
  }

  /** Without a budget of tokens the ratio counts as 0. */
  lemma NoBudgetStage(sections: seq<Section>, maxTokens: int, t: Thresholds)
    requires maxTokens <= 0 && 0.0 < t.light <= t.rolling <= t.emergency
    ensures StageOf(sections, maxTokens, t) == Normal
  {
  }

  /** Four characters a token, rounded up. */
  lemma EstimateMeaning(value: string)
    ensures var n := EstimateTokens(value); 4 * (n - 1) < |NormalizeText(value)| <= 4 * n
  {
    hide NormalizeText;
  }

  // ----- the prompt -----

  /** Which sections are kept: those with something to say that are required, or fit behind what is kept before. */
  lemma {:induction false} SelectMeaning(rules: Rules, sections: seq<Section>, stage: Stage, maxChars: int, n: nat)
    requires n < |sections|
    ensures var before := Select(rules, sections[..n], stage, maxChars).active;
            var all := Select(rules, sections, stage, maxChars).active;
            var text := Compacted(rules, sections[n], stage, maxChars);
            && before <= all
            && ((exists k :: |before| <= k < |all| && all[k].index == n) <==>
                  text != ""
                  && (sections[n].required
                      || TotalLength(Blocks(before)) + |Block(sections[n].title, text)| <= maxChars))
  {
    hide *;
    var m := |sections| - 1;
    var sel, all := Select(rules, sections[..m], stage, maxChars), Select(rules, sections, stage, maxChars).active;
    SelectLast(rules, sections, stage, maxChars);
    SelectKeeps(rules, sections[..m], stage, maxChars);
    ConsiderMeaning(rules, sections[..m], sel, sections[m], stage, maxChars);
    if n < m {
      assert sections[..m][..n] == sections[..n] && sections[..m][n] == sections[n];
      SelectMeaning(rules, sections[..m], stage, maxChars, n);
      OneMoreActive(Select(rules, sections[..n], stage, maxChars).active, sel.active, all, n);
    } else if all != sel.active {
      assert all[|sel.active|].index == n;
    }
  }

  lemma OneMoreActive(before: seq<Active>, most: seq<Active>, all: seq<Active>, n: nat)
    requires before <= most && (all == most || (|all| == |most| + 1 && all[..|most|] == most && all[|most|].index != n))
    ensures before <= all
    ensures (exists k :: |before| <= k < |all| && all[k].index == n)
       <==> exists k :: |before| <= k < |most| && most[k].index == n
  {
    assert forall k :: 0 <= k < |most| ==> all[k] == most[k];
  }

  lemma ConsiderMeaning(rules: Rules, sections: seq<Section>, sel: Selection, s: Section, stage: Stage, maxChars: int)
    requires WithinBudget(sections, sel, maxChars)
    ensures var sel1 := Consider(rules, sel, s, |sections|, stage, maxChars);
            var text := Compacted(rules, s, stage, maxChars);
            && sel.active <= sel1.active
            && (if text != "" && (s.required || TotalLength(Blocks(sel.active)) + |Block(s.title, text)| <= maxChars)
                then sel1.active == sel.active + [Active(|sections|, s.title, text, s.required)]
                else sel1.active == sel.active)
  {
    BudgetParts(sections, sel, maxChars);
    hide Compacted, TotalLength, Blocks, Block, RequiredAllowance;
  }

  /** What a section may measure: its own tokens, four characters each, or 32% of the prompt if required, else 18%. */
  lemma SectionBudgetMeaning(s: Section, maxChars: int)
    ensures var n := SectionBudget(s, maxChars);
            && (s.maxTokens != 0 ==> n == 4 * s.maxTokens)
            && (s.maxTokens == 0 && s.required ==> 100 * n <= 32 * maxChars < 100 * (n + 1))
            && (s.maxTokens == 0 && !s.required ==> 100 * n <= 18 * maxChars < 100 * (n + 1))
  {
  }

  /** Blocks are laid out in order with a blank line between any two. */
  lemma {:induction false} JoinBlocksMeaning(before: seq<string>, after: seq<string>)
    requires before != [] && after != []
    ensures JoinBlocks(before + after) == JoinBlocks(before) + "\n\n" + JoinBlocks(after)
    ensures |before| == 1 ==> JoinBlocks(before) == before[0]
  {
    hide *;
    JoinBlocksCases(before);
    JoinBlocksCases(before + after);
    if |before| == 1 {
      assert (before + after)[1..] == after;
    } else {
      assert (before + after)[1..] == before[1..] + after;
      JoinBlocksMeaning(before[1..], after);
      assert before[0] + "\n\n" + (JoinBlocks(before[1..]) + "\n\n" + JoinBlocks(after))
          == before[0] + "\n\n" + JoinBlocks(before[1..]) + "\n\n" + JoinBlocks(after);
    }
  }

  lemma JoinBlocksCases(blocks: seq<string>)
    requires blocks != []
    ensures JoinBlocks(blocks) == if |blocks| == 1 then blocks[0] else blocks[0] + "\n\n" + JoinBlocks(blocks[1..])
  {
  }

  /** Each kept section stands in the prompt behind its label. */
  lemma {:induction false} BlockInPrompt(blocks: seq<string>, k: nat)
    requires k < |blocks|
    ensures exists i :: 0 <= i <= |JoinBlocks(blocks)| && blocks[k] <= JoinBlocks(blocks)[i..]
  {
    var all := JoinBlocks(blocks);
    if k == 0 {
      assert blocks[0] <= all[0..];
    } else {
      BlockInPrompt(blocks[1..], k - 1);
      var rest := JoinBlocks(blocks[1..]);
      var i :| 0 <= i <= |rest| && blocks[1..][k - 1] <= rest[i..];
      assert all == blocks[0] + "\n\n" + rest;
      assert all[|blocks[0]| + 2 + i..] == rest[i..];
    }
  }

  /** A required section that fits its budget stands whole in the prompt, behind its label. */
  lemma RequiredStandsWhole(rules: Rules, sections: seq<Section>, stage: Stage, maxChars: int, i: nat)
    requires i < |sections| && sections[i].required && Chosen(sections[i], stage) != ""
    requires Stable(sections[i].text) && Stable(sections[i].summaryText)
    requires var s := sections[i];
             && |Chosen(s, stage)| <= SectionBudget(s, maxChars)
             && (OwnLimit(s, stage) != 0 ==> |Chosen(s, stage)| <= OwnLimit(s, stage))
    ensures var s, prompt := sections[i], Prompt(Select(rules, sections, stage, maxChars).active);
            exists p :: 0 <= p <= |prompt| && s.title + ":\n" + Chosen(s, stage) <= prompt[p..]
  {
    hide *;
    var s, active := sections[i], Select(rules, sections, stage, maxChars).active;
    SectionWhole(rules, s, stage, maxChars);
    SelectMeaning(rules, sections, stage, maxChars, i);
    SelectKeeps(rules, sections, stage, maxChars);
    var k :| 0 <= k < |active| && active[k].index == i;
    ActiveIs(rules, sections, active, stage, maxChars, k);
    PromptIs(active);
    BlockIs(active, k);
    BlockInPrompt(Blocks(active), k);
  }

  lemma ActiveIs(rules: Rules, sections: seq<Section>, active: seq<Active>, stage: Stage, maxChars: int, k: nat)
    requires InOrder(rules, sections, active, stage, maxChars) && k < |active|
    ensures active[k].index < |sections| && active[k].title == sections[active[k].index].title
    ensures active[k].text == Compacted(rules, sections[active[k].index], stage, maxChars)
  {
    hide Compacted;
  }

  lemma PromptIs(active: seq<Active>)
    ensures Prompt(active) == JoinBlocks(Blocks(active))
  {
    hide JoinBlocks;
  }

  lemma BlockIs(active: seq<Active>, k: nat)
    requires k < |active|
    ensures |Blocks(active)| == |active| && Blocks(active)[k] == active[k].title + ":\n" + active[k].text
  {
  }

  /** Every section has a text that fits its budget and is shown whole. */
  ghost predicate AllFit(sections: seq<Section>, maxChars: int) {
    forall i :: 0 <= i < |sections| ==>
      var s := sections[i];
      && NormalizeText(s.text) != "" && Stable(s.text) && Stable(s.summaryText)
      && |NormalizeText(s.text)| <= SectionBudget(s, maxChars)
  }

  /** In the normal stage, a prompt whose sections fit is the raw prompt: every label and text, whole and in order. */
  lemma PromptUntouched(rules: Rules, sections: seq<Section>, maxChars: int)
    requires AllFit(sections, maxChars) && TotalLength(RawBlocks(sections)) - 2 <= maxChars
    ensures RawBlocks(sections) == WholeBlocks(sections)
    ensures Prompt(Select(rules, sections, Normal, maxChars).active) == JoinBlocks(WholeBlocks(sections))
  {
    hide *;
    AllSelected(rules, sections, maxChars);
    PromptIs(Select(rules, sections, Normal, maxChars).active);
  }

  /** The blocks of the sections as given. */
  function WholeBlocks(sections: seq<Section>): seq<string> {
    seq(|sections|, i requires 0 <= i < |sections| => sections[i].title + ":\n" + NormalizeText(sections[i].text))
  }

  lemma {:induction false} AllSelected(rules: Rules, sections: seq<Section>, maxChars: int)
    requires AllFit(sections, maxChars) && TotalLength(RawBlocks(sections)) - 2 <= maxChars
    ensures RawBlocks(sections) == WholeBlocks(sections)
    ensures Blocks(Select(rules, sections, Normal, maxChars).active) == WholeBlocks(sections)
  {
    hide *;
    if sections == [] {
      NoBlocks(rules, maxChars);
    } else {
      var m := |sections| - 1;
      var s, before := sections[m], sections[..m];
      FitParts(sections, maxChars);
      WholeSnoc(sections);
      RawSnoc(sections, maxChars);
      TotalLengthSnoc(RawBlocks(before), s.title + ":\n" + NormalizeText(s.text));
      AllSelected(rules, before, maxChars);
      SelectLast(rules, sections, Normal, maxChars);
      SelectKeeps(rules, before, Normal, maxChars);
      ConsiderMeaning(rules, before, Select(rules, before, Normal, maxChars), s, Normal, maxChars);
      ChosenNormal(s);
      SectionWhole(rules, s, Normal, maxChars);
      SnocBlocks(Select(rules, before, Normal, maxChars).active, Active(m, s.title, NormalizeText(s.text), s.required));
    }
  }

  lemma NoBlocks(rules: Rules, maxChars: int)
    ensures RawBlocks([]) == WholeBlocks([]) == Blocks(Select(rules, [], Normal, maxChars).active) == []
  {
  }

  lemma FitParts(sections: seq<Section>, maxChars: int)
    requires AllFit(sections, maxChars) && sections != []
    ensures var s := sections[|sections| - 1];
            && NormalizeText(s.text) != "" && Stable(s.text) && Stable(s.summaryText)
            && |NormalizeText(s.text)| <= SectionBudget(s, maxChars)
    ensures AllFit(sections[..|sections| - 1], maxChars)
  {
    hide NormalizeText, Stable, SectionBudget;
  }

  lemma WholeSnoc(sections: seq<Section>)
    requires sections != []
    ensures var s := sections[|sections| - 1];
            WholeBlocks(sections) == WholeBlocks(sections[..|sections| - 1]) + [s.title + ":\n" + NormalizeText(s.text)]
  {
    hide NormalizeText;
  }

  lemma RawSnoc(sections: seq<Section>, maxChars: int)
    requires sections != [] && var s := sections[|sections| - 1]; Stable(s.text) && NormalizeText(s.text) != ""
    ensures var s := sections[|sections| - 1];
            RawBlocks(sections) == RawBlocks(sections[..|sections| - 1]) + [s.title + ":\n" + NormalizeText(s.text)]
  {
    hide NormalizeText, Stable;
  }

  lemma ChosenNormal(s: Section)
    requires NormalizeText(s.text) != ""
    ensures Chosen(s, Normal) == NormalizeText(s.text) && OwnLimit(s, Normal) == 0
  {
    hide NormalizeText;
  }

  lemma SnocBlocks(active: seq<Active>, a: Active)
    ensures Blocks(active + [a]) == Blocks(active) + [a.title + ":\n" + a.text]
    ensures Block(a.title, a.text) == a.title + ":\n" + a.text
  {
  }
}
