/**
  The prompt governor of `src/agent-token-governance.mjs`, in label format: trimming a text to a number of
  characters, compacting sections by stage, and choosing the sections of the prompt.

  Line classification by pattern and lower-casing are parameters.
 */
module PromptBudget {
  import opened Basics
  import opened JsText
  import opened TextLists

  /** `estimateTokenCount`: a quarter of the normalised length, rounded up. */
  function EstimateTokens(value: string): nat {
    (|NormalizeText(value)| + 3) / 4
  }

  // ----- trimTextForBudget -----

  datatype Rules = Rules(isHeading: string -> bool, lower: string -> string)

  function SplitLines(s: string): (r: seq<string>)
    ensures r != []
  {
    if s == "" then [""]
    else
      var r := SplitLines(s[1..]);
      if s[0] == '\n' then [""] + r else [[s[0]] + r[0]] + r[1..]
  }

  function TrimAll(lines: seq<string>): seq<string> {
    if lines == [] then []
    else (if Trim(lines[0]) == "" then [] else [Trim(lines[0])]) + TrimAll(lines[1..])
  }

  function Filter(lines: seq<string>, keep: string -> bool): seq<string> {
    if lines == [] then []
    else (if keep(lines[0]) then [lines[0]] else []) + Filter(lines[1..], keep)
  }

  function LowerAll(lines: seq<string>, lower: string -> string): seq<string> {
    seq(|lines|, i requires 0 <= i < |lines| => lower(lines[i]))
  }

  predicate Mentions(rules: Rules, keywords: seq<string>, line: string) {
    exists k :: k in keywords && k != "" && Includes(rules.lower(line), k)
  }

  /** Headings, lines with a keyword, and the first six lines. */
  function PriorityLines(rules: Rules, lines: seq<string>, keywords: seq<string>): seq<string> {
    Filter(lines, rules.isHeading) + Filter(lines, line => Mentions(rules, keywords, line)) + Take(lines, 6)
  }

  /** The longest prefix of `lines` whose lengths, with one each for a break, stay within `budget`. */
  function Fitting(lines: seq<string>, used: nat, budget: int): seq<string> {
    if lines == [] || used + |lines[0]| + 1 > budget then []
    else [lines[0]] + Fitting(lines[1..], used + |lines[0]| + 1, budget)
  }

  function JoinLines(lines: seq<string>): string {
    if lines == [] then "" else if |lines| == 1 then lines[0] else lines[0] + "\n" + JoinLines(lines[1..])
  }

  function Head(text: string, maxChars: int): string {
    var n := Max(60, maxChars * 55 / 100);
    Trim(if n < |text| then text[..n] else text)
  }

  function TailWindow(text: string, maxChars: int): string {
    var n := Max(40, maxChars * 20 / 100);
    Trim(if n < |text| then text[|text| - n..] else text)
  }

  function Summary(rules: Rules, text: string, maxChars: int, keywords: seq<string>, preserveTail: bool): string {
    var lines := TrimAll(SplitLines(text));
    var lowered := LowerAll(Dedup(Normalized(keywords)), rules.lower);
    var compact := Fitting(Dedup(Normalized(PriorityLines(rules, lines, lowered))), 0, Max(80, maxChars - 24));
    JoinLines(Dedup(Normalized(compact + [Head(text, maxChars)]
                               + (if preserveTail then [TailWindow(text, maxChars)] else []))))
  }

  /** The hard cut: one character is kept for the ellipsis. */
  function Cut(joined: string, maxChars: int): string {
    var n := Max(0, maxChars - 1);
    Trim(if n < |joined| then joined[..n] else joined) + "\U{2026}"
  }

  function TrimText(rules: Rules, value: string, maxChars: int, keywords: seq<string>, preserveTail: bool): string {
    var text := NormalizeText(value);
    if text == "" || |text| <= maxChars then text
    else
      var joined := Summary(rules, text, maxChars, keywords, preserveTail);
      if |joined| <= maxChars then joined else Cut(joined, maxChars)
  }

  /** The loop over the priority lines. */
  method FitLines(lines: seq<string>, budget: int) returns (compact: seq<string>)
    ensures compact == Fitting(lines, 0, budget)
  {
    compact := [];
    var currentLength: nat := 0;
    assert lines[0..] == lines;
    for i := 0 to |lines|
      invariant Fitting(lines, 0, budget) == compact + Fitting(lines[i..], currentLength, budget)
    {
      var line := lines[i];
      assert lines[i..][1..] == lines[i + 1..];
      if currentLength + |line| + 1 > budget {
        break;
      }
      compact := compact + [line];
      currentLength := currentLength + |line| + 1;
    }
  }

  /** `trimTextForBudget`. */
  method TrimTextForBudget(rules: Rules, value: string, maxChars: int, keywords: seq<string>, preserveTail: bool)
    returns (r: string)
    ensures r == TrimText(rules, value, maxChars, keywords, preserveTail)
    ensures |r| <= Max(1, maxChars)
    ensures r == "" <==> NormalizeText(value) == ""
  {
    TrimTextBound(rules, value, maxChars, keywords, preserveTail);
    TrimTextShows(rules, value, maxChars, keywords, preserveTail);
    var text := NormalizeText(value);
    if text == "" || |text| <= maxChars {
      return text;
    }
    var unique := UniqueLines(keywords);
    var lines := TrimAll(SplitLines(text));
    var priority := UniqueLines(PriorityLines(rules, lines, LowerAll(unique, rules.lower)));
    var compact := FitLines(priority, Max(80, maxChars - 24));
    var summaryLines := UniqueLines(compact + [Head(text, maxChars)]
                                    + (if preserveTail then [TailWindow(text, maxChars)] else []));
    var joined := JoinLines(summaryLines);
    if |joined| <= maxChars {
      return joined;
    }
    r := Cut(joined, maxChars);
  }

  /** A trimmed text never exceeds its budget, apart from the one character that an ellipsis takes. */
  lemma TrimTextBound(rules: Rules, value: string, maxChars: int, keywords: seq<string>, preserveTail: bool)
    ensures |TrimText(rules, value, maxChars, keywords, preserveTail)| <= Max(1, maxChars)
  {
    hide NormalizeText;
    hide Summary;
  }

  /** It is blank only when the text was. */
  lemma TrimTextShows(rules: Rules, value: string, maxChars: int, keywords: seq<string>, preserveTail: bool)
    ensures TrimText(rules, value, maxChars, keywords, preserveTail) == "" <==> NormalizeText(value) == ""
  {
    hide NormalizeText;
    hide Summary;
    var text := NormalizeText(value);
    if text != "" && |text| > maxChars {
      SummaryShows(rules, value, maxChars, keywords, preserveTail);
    }
  }

  lemma SummaryShows(rules: Rules, value: string, maxChars: int, keywords: seq<string>, preserveTail: bool)
    requires NormalizeText(value) != ""
    ensures Summary(rules, NormalizeText(value), maxChars, keywords, preserveTail) != ""
  {
    hide NormalizeText;
    var text := NormalizeText(value);
    HeadShows(value, maxChars);
    var lines := TrimAll(SplitLines(text));
    var lowered := LowerAll(Dedup(Normalized(keywords)), rules.lower);
    var compact := Fitting(Dedup(Normalized(PriorityLines(rules, lines, lowered))), 0, Max(80, maxChars - 24));
    var tail := if preserveTail then [TailWindow(text, maxChars)] else [];
    JoinedShows(compact, Head(text, maxChars), tail);
  }

  lemma JoinedShows(before: seq<string>, head: string, after: seq<string>)
    requires NormalizeText(head) != ""
    ensures JoinLines(Dedup(Normalized(before + [head] + after))) != ""
  {
    hide NormalizeText;
    NormalizedSnoc(before, head);
    NormalizedConcat(before + [head], after);
    var n := Normalized(before + [head] + after);
    assert NormalizeText(head) in n;
    DedupMeaning(n);
    NormalizedNonBlank(before + [head] + after);
    assert Dedup(n) != [] && Dedup(n)[0] in n;
    assert JoinLines(Dedup(n))[0] == Dedup(n)[0][0];
  }

  lemma {:induction false} NormalizedNonBlank(items: seq<string>)
    ensures forall x :: x in Normalized(items) ==> x != ""
  {
    hide NormalizeText;
    if items != [] {
      NormalizedNonBlank(items[..|items| - 1]);
    }
  }

  /** The head of a normalised text starts with the text's first character, which is visible. */
  lemma HeadShows(value: string, maxChars: int)
    requires NormalizeText(value) != ""
    ensures NormalizeText(Head(NormalizeText(value), maxChars)) != ""
  {
    var text := NormalizeText(value);
    NormalizeIsNormal(value);
    var n := Max(60, maxChars * 55 / 100);
    var window := if n < |text| then text[..n] else text;
    assert Shows(text[0]);
    assert window[0] == text[0] && window[0] in window;
    TrimShows(window, text[0]);
    NormalizeEmpty(Head(text, maxChars));
  }

  // ----- sections -----

  datatype Section = Section(
    title: string, text: string, summaryText: string, keywords: seq<string>, required: bool,
    maxTokens: int, rollingMaxChars: int, emergencyMaxChars: int)  // 0 where not given

  datatype Stage = Normal | Light | Rolling | Emergency

  datatype Thresholds = Thresholds(light: real, rolling: real, emergency: real)

  function OrText(a: string, b: string): string {
    if a == "" then b else a
  }

  function CompactSection(rules: Rules, s: Section, stage: Stage, maxChars: int): string {
    var full, summary := NormalizeText(s.text), NormalizeText(s.summaryText);
    if full == "" && summary == "" then ""
    else match stage
      case Normal => TrimText(rules, OrText(full, summary), maxChars, s.keywords, true)
      case Light => TrimText(rules, OrText(summary, full), maxChars, s.keywords, true)
      case Rolling => TrimText(rules, OrText(summary, full), Min(maxChars, Or(s.rollingMaxChars, maxChars)),
                           s.keywords, true)
      case Emergency =>
        if s.required
        then TrimText(rules, OrText(summary, full), Min(maxChars, Or(s.emergencyMaxChars, maxChars)), s.keywords, true)
        else ""
  }

  predicate NonBlank(s: Section) {
    NormalizeText(s.text) != "" || NormalizeText(s.summaryText) != ""
  }

  function SectionBudget(s: Section, maxChars: int): int {
    Or(s.maxTokens * 4, if s.required then maxChars * 32 / 100 else maxChars * 18 / 100)
  }

  /** Compacting stays within the section's budget, and blanks only blank sections, or optional ones in an emergency. */
  lemma CompactBound(rules: Rules, s: Section, stage: Stage, maxChars: int)
    ensures |CompactSection(rules, s, stage, maxChars)| <= Max(1, maxChars)
    ensures NonBlankNormal(s) ==>
              (CompactSection(rules, s, stage, maxChars) == "" <==> !NonBlank(s) || (stage == Emergency && !s.required))
  {
    hide TrimText;
    hide NormalizeText;
    var full, summary := NormalizeText(s.text), NormalizeText(s.summaryText);
    var first, second := OrText(full, summary), OrText(summary, full);
    forall n: int, t: string
      ensures |TrimText(rules, t, n, s.keywords, true)| <= Max(1, n)
      ensures TrimText(rules, t, n, s.keywords, true) == "" <==> NormalizeText(t) == ""
    {
      TrimTextBound(rules, t, n, s.keywords, true);
      TrimTextShows(rules, t, n, s.keywords, true);
    }
  }

  /** Normalising again does not blank what it kept. */
  predicate NonBlankNormal(s: Section) {
    && (NormalizeText(s.text) != "" ==> NormalizeText(NormalizeText(s.text)) != "")
    && (NormalizeText(s.summaryText) != "" ==> NormalizeText(NormalizeText(s.summaryText)) != "")
  }

  lemma AlwaysNonBlankNormal(s: Section)
    ensures NonBlankNormal(s)
  {
    hide NormalizeText;
    NormalizeKeepsSomething(s.text);
    NormalizeKeepsSomething(s.summaryText);
  }

  // ----- governPromptSections, label format -----

  /** A section that made it into the prompt, with its position in the input. */
  datatype Active = Active(index: nat, title: string, text: string, required: bool)

  function Block(title: string, text: string): string {
    title + ":\n" + text
  }

  function JoinBlocks(blocks: seq<string>): string {
    if blocks == [] then "" else if |blocks| == 1 then blocks[0] else blocks[0] + "\n\n" + JoinBlocks(blocks[1..])
  }

  function Prompt(active: seq<Active>): string {
    JoinBlocks(seq(|active|, i requires 0 <= i < |active| => Block(active[i].title, active[i].text)))
  }

  function Base(s: Section): Section {
    s.(text := NormalizeText(s.text), summaryText := NormalizeText(s.summaryText))
  }

  function RawBlocks(sections: seq<Section>): seq<string> {
    if sections == [] then []
    else
      RawBlocks(sections[..|sections| - 1])
      + (var s := Base(sections[|sections| - 1]); if s.text == "" then [] else [Block(s.title, s.text)])
  }

  function StageOf(sections: seq<Section>, maxTokens: int, t: Thresholds): Stage {
    var rawTokens := EstimateTokens(JoinBlocks(RawBlocks(sections)));
    var ratio := if maxTokens > 0 then rawTokens as real / maxTokens as real else 0.0;
    if ratio >= t.emergency then Emergency
    else if ratio >= t.rolling then Rolling
    else if ratio >= t.light then Light
    else Normal
  }

  /** The text a section would contribute. */
  function Compacted(rules: Rules, s: Section, stage: Stage, maxChars: int): string {
    CompactSection(rules, Base(s), stage, SectionBudget(s, maxChars))
  }

  datatype Selection = Selection(active: seq<Active>, totalChars: nat)

  /** One round of the selection loop. */
  function Consider(rules: Rules, sel: Selection, s: Section, index: nat, stage: Stage, maxChars: int): Selection {
    var compacted := Compacted(rules, s, stage, maxChars);
    var block := Block(s.title, compacted);
    if compacted == "" || (!s.required && sel.totalChars + |block| > maxChars) then sel
    else Selection(sel.active + [Active(index, s.title, compacted, s.required)], sel.totalChars + |block| + 2)
  }

  function Select(rules: Rules, sections: seq<Section>, stage: Stage, maxChars: int): Selection {
    if sections == [] then Selection([], 0)
    else
      var n := |sections| - 1;
      Consider(rules, Select(rules, sections[..n], stage, maxChars), sections[n], n, stage, maxChars)
  }

  /** The longest block a section may contribute, with its separator. */
  function Allowance(s: Section, maxChars: int): nat {
    |s.title| + Max(1, SectionBudget(s, maxChars)) + 4
  }

  /** The allowances of the required sections that were kept. */
  function RequiredAllowance(sections: seq<Section>, active: seq<Active>, maxChars: int): nat
    requires forall a :: a in active ==> a.index < |sections|
  {
    if active == [] then 0
    else
      var a := active[|active| - 1];
      RequiredAllowance(sections, active[..|active| - 1], maxChars)
      + (if a.required then Allowance(sections[a.index], maxChars) else 0)
  }

  // ----- what is selected -----

  function Blocks(active: seq<Active>): seq<string> {
    seq(|active|, i requires 0 <= i < |active| => Block(active[i].title, active[i].text))
  }

  function TotalLength(blocks: seq<string>): nat {
    if blocks == [] then 0 else |blocks[0]| + 2 + TotalLength(blocks[1..])
  }

  lemma {:induction false} JoinedLength(blocks: seq<string>)
    ensures blocks == [] ==> JoinBlocks(blocks) == ""
    ensures blocks != [] ==> |JoinBlocks(blocks)| == TotalLength(blocks) - 2
  {
    if |blocks| > 1 {
      JoinedLength(blocks[1..]);
    }
  }

  lemma {:induction false} TotalLengthSnoc(blocks: seq<string>, b: string)
    ensures TotalLength(blocks + [b]) == TotalLength(blocks) + |b| + 2
  {
    if blocks != [] {
      TotalLengthSnoc(blocks[1..], b);
      assert (blocks + [b])[1..] == blocks[1..] + [b];
    } else {
      assert [] + [b] == [b];
    }
  }

  /** Each active entry is its section, compacted, and entries stand in the order of their sections. */
  ghost predicate InOrder(rules: Rules, sections: seq<Section>, active: seq<Active>, stage: Stage, maxChars: int) {
    && (forall i, j :: 0 <= i < j < |active| ==> active[i].index < active[j].index)
    && forall i :: 0 <= i < |active| ==>
         var a := active[i];
         && a.index < |sections| && a.title == sections[a.index].title && a.required == sections[a.index].required
         && a.text == Compacted(rules, sections[a.index], stage, maxChars) && a.text != ""
  }

  /** Every required section that is not blank is among them. */
  ghost predicate KeepsRequired(sections: seq<Section>, active: seq<Active>) {
    forall i :: 0 <= i < |sections| && sections[i].required && NonBlank(sections[i]) ==>
      exists k :: 0 <= k < |active| && active[k].index == i
  }

  lemma RequiredAllowanceSnoc(sections: seq<Section>, active: seq<Active>, a: Active, maxChars: int)
    requires forall b :: b in active + [a] ==> b.index < |sections|
    ensures forall b :: b in active ==> b.index < |sections|
    ensures RequiredAllowance(sections, active + [a], maxChars)
         == RequiredAllowance(sections, active, maxChars)
            + (if a.required then Allowance(sections[a.index], maxChars) else 0)
  {
    assert forall b :: b in active ==> b in active + [a];
    assert (active + [a])[..|active|] == active;
    assert a in active + [a];
  }

  lemma {:induction false} RequiredAllowanceLonger(sections: seq<Section>, s: Section, active: seq<Active>,
                                             maxChars: int)
    requires forall a :: a in active ==> a.index < |sections|
    ensures forall a :: a in active ==> a.index < |sections + [s]|
    ensures RequiredAllowance(sections + [s], active, maxChars) == RequiredAllowance(sections, active, maxChars)
  {
    if active != [] {
      var before, a := active[..|active| - 1], active[|active| - 1];
      assert forall b :: b in before ==> b in active;
      assert a in active;
      RequiredAllowanceLonger(sections, s, before, maxChars);
      assert (sections + [s])[a.index] == sections[a.index];
    }
  }

  lemma BlocksSnoc(active: seq<Active>, a: Active)
    ensures TotalLength(Blocks(active + [a])) == TotalLength(Blocks(active)) + |Block(a.title, a.text)| + 2
    ensures Blocks([]) == []
  {
    TotalLengthSnoc(Blocks(active), Block(a.title, a.text));
    assert Blocks(active + [a]) == Blocks(active) + [Block(a.title, a.text)];
  }

  /** The running total is that of the blocks, and exceeds the budget by required sections' allowances at most. */
  ghost predicate WithinBudget(sections: seq<Section>, sel: Selection, maxChars: int) {
    && (forall a :: a in sel.active ==> a.index < |sections|)
    && sel.totalChars == TotalLength(Blocks(sel.active))
    && (sel.active != [] ==>
          sel.totalChars - 2 <= Max(0, maxChars) + RequiredAllowance(sections, sel.active, maxChars))
  }

  lemma ConsiderBudget(rules: Rules, sections: seq<Section>, sel: Selection, s: Section, stage: Stage, maxChars: int)
    requires WithinBudget(sections, sel, maxChars)
    ensures WithinBudget(sections + [s], Consider(rules, sel, s, |sections|, stage, maxChars), maxChars)
  {
    hide CompactSection;
    hide NormalizeText;
    hide WithinBudget;
    var text := Compacted(rules, s, stage, maxChars);
    CompactBound(rules, Base(s), stage, SectionBudget(s, maxChars));
    SkippedBudget(sections, sel, s, maxChars);
    if s.required || sel.totalChars + |Block(s.title, text)| <= maxChars {
      AddedBudget(sections, sel, s, text, maxChars);
    }
  }

  lemma SkippedBudget(sections: seq<Section>, sel: Selection, s: Section, maxChars: int)
    requires WithinBudget(sections, sel, maxChars)
    ensures WithinBudget(sections + [s], sel, maxChars)
  {
    RequiredAllowanceLonger(sections, s, sel.active, maxChars);
  }

  lemma AddedBudget(sections: seq<Section>, sel: Selection, s: Section, text: string, maxChars: int)
    requires WithinBudget(sections, sel, maxChars)
    requires |text| <= Max(1, SectionBudget(s, maxChars))
    requires s.required || sel.totalChars + |Block(s.title, text)| <= maxChars
    ensures var a := Active(|sections|, s.title, text, s.required);
            WithinBudget(sections + [s], Selection(sel.active + [a], sel.totalChars + |Block(s.title, text)| + 2),
                         maxChars)
  {
    hide *;
    var all := sections + [s];
    var a := Active(|sections|, s.title, text, s.required);
    BudgetParts(sections, sel, maxChars);
    RequiredAllowanceLonger(sections, s, sel.active, maxChars);
    ActiveSnoc(sel.active, a, |all|);
    RequiredAllowanceSnoc(all, sel.active, a, maxChars);
    BlocksSnoc(sel.active, a);
    NoAllowance(sections, maxChars);
    AllowanceOf(s, text, maxChars);
    assert all[|sections|] == s;
    IsWithinBudget(all, Selection(sel.active + [a], sel.totalChars + |Block(s.title, text)| + 2), maxChars);
  }

  lemma BudgetParts(sections: seq<Section>, sel: Selection, maxChars: int)
    requires WithinBudget(sections, sel, maxChars)
    ensures forall a :: a in sel.active ==> a.index < |sections|
    ensures sel.totalChars == TotalLength(Blocks(sel.active))
    ensures if sel.active == [] then sel.totalChars == 0
            else sel.totalChars - 2 <= Max(0, maxChars) + RequiredAllowance(sections, sel.active, maxChars)
  {
    hide RequiredAllowance;
  }

  lemma IsWithinBudget(sections: seq<Section>, sel: Selection, maxChars: int)
    requires forall a :: a in sel.active ==> a.index < |sections|
    requires sel.totalChars == TotalLength(Blocks(sel.active))
    requires sel.totalChars - 2 <= Max(0, maxChars) + RequiredAllowance(sections, sel.active, maxChars)
    ensures WithinBudget(sections, sel, maxChars)
  {
    hide RequiredAllowance, TotalLength, Blocks;
  }

  lemma ActiveSnoc(active: seq<Active>, a: Active, n: nat)
    requires a.index < n && forall b :: b in active ==> b.index < n
    ensures forall b :: b in active + [a] ==> b.index < n
  {
  }

  lemma NoAllowance(sections: seq<Section>, maxChars: int)
    ensures RequiredAllowance(sections, [], maxChars) == 0 && TotalLength(Blocks([])) == 0
    ensures Max(0, maxChars) >= maxChars && Max(0, maxChars) >= 0
  {
  }

  lemma AllowanceOf(s: Section, text: string, maxChars: int)
    requires |text| <= Max(1, SectionBudget(s, maxChars))
    ensures |Block(s.title, text)| + 2 <= Allowance(s, maxChars)
  {
  }

  lemma ConsiderOrder(rules: Rules, sections: seq<Section>, sel: Selection, s: Section, stage: Stage, maxChars: int)
    requires InOrder(rules, sections, sel.active, stage, maxChars) && KeepsRequired(sections, sel.active)
    ensures var sel1 := Consider(rules, sel, s, |sections|, stage, maxChars);
            InOrder(rules, sections + [s], sel1.active, stage, maxChars) && KeepsRequired(sections + [s], sel1.active)
  {
    hide CompactSection;
    hide NormalizeText;
    hide Compacted;
    var sel1 := Consider(rules, sel, s, |sections|, stage, maxChars);
    var all := sections + [s];
    RequiredCompacts(rules, s, stage, maxChars);
    hide NonBlank;
    hide Block;
    hide InOrder;
    ConsideredOrder(rules, sections, sel, s, stage, maxChars);
    forall i | 0 <= i < |all| && all[i].required && NonBlank(all[i])
      ensures exists k :: 0 <= k < |sel1.active| && sel1.active[k].index == i
    {
      if i < |sections| {
        assert all[i] == sections[i];
        var k :| 0 <= k < |sel.active| && sel.active[k].index == i;
        assert sel1.active[k].index == i;
      } else {
        assert sel1.active[|sel.active|].index == i;
      }
    }
  }

  lemma ConsideredOrder(rules: Rules, sections: seq<Section>, sel: Selection, s: Section, stage: Stage, maxChars: int)
    requires InOrder(rules, sections, sel.active, stage, maxChars)
    ensures InOrder(rules, sections + [s], Consider(rules, sel, s, |sections|, stage, maxChars).active, stage, maxChars)
  {
    hide CompactSection, NormalizeText, Compacted, Block, NonBlank;
  }

  lemma RequiredCompacts(rules: Rules, s: Section, stage: Stage, maxChars: int)
    ensures s.required && NonBlank(s) ==> Compacted(rules, s, stage, maxChars) != ""
    ensures stage == Emergency && !s.required ==> Compacted(rules, s, stage, maxChars) == ""
  {
    hide CompactSection;
    hide NormalizeText;
    AlwaysNonBlankNormal(s);
    AlwaysNonBlankNormal(Base(s));
    CompactBound(rules, Base(s), stage, SectionBudget(s, maxChars));
  }

  lemma SelectLast(rules: Rules, sections: seq<Section>, stage: Stage, maxChars: int)
    requires sections != []
    ensures var n := |sections| - 1;
            Select(rules, sections, stage, maxChars)
            == Consider(rules, Select(rules, sections[..n], stage, maxChars), sections[n], n, stage, maxChars)
  {
    hide Consider;
  }

  lemma NothingSelected(rules: Rules, stage: Stage, maxChars: int)
    ensures var sel := Select(rules, [], stage, maxChars);
            && WithinBudget([], sel, maxChars)
            && InOrder(rules, [], sel.active, stage, maxChars) && KeepsRequired([], sel.active)
  {
    assert Blocks([]) == [];
    hide CompactSection;
    hide NormalizeText;
  }

  lemma {:induction false} SelectKeeps(rules: Rules, sections: seq<Section>, stage: Stage, maxChars: int)
    ensures var sel := Select(rules, sections, stage, maxChars);
            && WithinBudget(sections, sel, maxChars)
            && InOrder(rules, sections, sel.active, stage, maxChars) && KeepsRequired(sections, sel.active)
  {
    hide *;
    if sections == [] {
      NothingSelected(rules, stage, maxChars);
    } else {
      SelectLast(rules, sections, stage, maxChars);
      var n := |sections| - 1;
      SelectKeeps(rules, sections[..n], stage, maxChars);
      var before := Select(rules, sections[..n], stage, maxChars);
      ConsiderBudget(rules, sections[..n], before, sections[n], stage, maxChars);
      ConsiderOrder(rules, sections[..n], before, sections[n], stage, maxChars);
      assert sections[..n] + [sections[n]] == sections;
    }
  }

  /** The prompt exceeds the budget by the allowances of the required sections in it at most. */
  ghost predicate FitsBudget(sections: seq<Section>, active: seq<Active>, maxChars: int) {
    && (forall a :: a in active ==> a.index < |sections|)
    && |Prompt(active)| <= Max(0, maxChars) + RequiredAllowance(sections, active, maxChars)
  }

  /**
    The length of the prompt: within four characters a token when every section is optional, and beyond
    that at most by the label, budget and separators of each required section that is kept.
   */
  lemma PromptLength(rules: Rules, sections: seq<Section>, stage: Stage, maxTokens: int)
    ensures FitsBudget(sections, Select(rules, sections, stage, 4 * maxTokens).active, 4 * maxTokens)
    ensures (forall i :: 0 <= i < |sections| ==> !sections[i].required) && maxTokens >= 0 ==>
              var prompt := Prompt(Select(rules, sections, stage, 4 * maxTokens).active);
              |prompt| <= 4 * maxTokens && EstimateTokens(prompt) <= maxTokens
  {
    hide Consider;
    hide NormalizeText;
    var sel := Select(rules, sections, stage, 4 * maxTokens);
    SelectKeeps(rules, sections, stage, 4 * maxTokens);
    JoinedLength(Blocks(sel.active));
    assert Prompt(sel.active) == JoinBlocks(Blocks(sel.active));
    if forall i :: 0 <= i < |sections| ==> !sections[i].required {
      NoRequired(sections, sel.active, 4 * maxTokens);
      NormalizeIsNormal(Prompt(sel.active));
    }
  }

  lemma {:induction false} NoRequired(sections: seq<Section>, active: seq<Active>, maxChars: int)
    requires forall a :: a in active ==> a.index < |sections| && !a.required
    ensures RequiredAllowance(sections, active, maxChars) == 0
  {
    if active != [] {
      assert forall a :: a in active[..|active| - 1] ==> a in active;
      assert active[|active| - 1] in active;
      NoRequired(sections, active[..|active| - 1], maxChars);
    }
  }

  /** In an emergency only required sections are kept. */
  lemma EmergencyKeepsRequired(rules: Rules, sections: seq<Section>, maxChars: int)
    ensures forall a :: a in Select(rules, sections, Emergency, maxChars).active ==> a.required
  {
    hide Consider;
    hide Compacted;
    SelectKeeps(rules, sections, Emergency, maxChars);
    var active := Select(rules, sections, Emergency, maxChars).active;
    forall a | a in active
      ensures a.required
    {
      RequiredCompacts(rules, sections[a.index], Emergency, maxChars);
    }
  }

  /** The loop of `governPromptSections`. */
  method GovernSections(rules: Rules, sections: seq<Section>, maxTokens: int, t: Thresholds)
    returns (stage: Stage, active: seq<Active>, prompt: string)
    ensures stage == StageOf(sections, maxTokens, t)
    ensures active == Select(rules, sections, stage, 4 * maxTokens).active && prompt == Prompt(active)
    ensures InOrder(rules, sections, active, stage, 4 * maxTokens) && KeepsRequired(sections, active)
    ensures FitsBudget(sections, active, 4 * maxTokens)
  {
    hide *;
    stage := StageOf(sections, maxTokens, t);
    var maxChars := maxTokens * 4;
    var totalChars: nat := 0;
    active := [];
    SelectNone(rules, sections, stage, maxChars);
    for i := 0 to |sections|
      invariant Selection(active, totalChars) == Select(rules, sections[..i], stage, maxChars)
    {
      SelectStep(rules, sections, i, stage, maxChars);
      var section := sections[i];
      var compacted := Compacted(rules, section, stage, maxChars);
      if compacted == "" {
        continue;
      }
      var block := Block(section.title, compacted);
      if !section.required && totalChars + |block| > maxChars {
        continue;
      }
      active := active + [Active(i, section.title, compacted, section.required)];
      totalChars := totalChars + |block| + 2;
    }
    assert sections[..|sections|] == sections;
    SelectKeeps(rules, sections, stage, maxChars);
    PromptLength(rules, sections, stage, maxTokens);
    prompt := Prompt(active);
  }

  lemma SelectNone(rules: Rules, sections: seq<Section>, stage: Stage, maxChars: int)
    ensures Select(rules, sections[..0], stage, maxChars) == Selection([], 0)
  {
  }

  lemma SelectStep(rules: Rules, sections: seq<Section>, i: nat, stage: Stage, maxChars: int)
    requires i < |sections|
    ensures var sel, s := Select(rules, sections[..i], stage, maxChars), sections[i];
            var text := Compacted(rules, s, stage, maxChars);
            var length := |Block(s.title, text)|;
            Select(rules, sections[..i + 1], stage, maxChars)
            == if text == "" || (!s.required && sel.totalChars + length > maxChars) then sel
               else Selection(sel.active + [Active(i, s.title, text, s.required)], sel.totalChars + length + 2)
  {
    hide Compacted;
    assert sections[..i + 1][..i] == sections[..i];
  }
}
