/**
  Answer sources in `src/answer-source-mapper.mjs`: the similarity of two snippets, the greedy grouping by
  it, and the removal of repeated ids before. Text clean-up for comparing is a parameter.
 */
module SourceGroups {
  import opened Basics

  /** `normalizeCompareText`. */
  type Cleaner = string -> string

  // ----- similarity -----

  predicate Comparable(c: char) {
    'a' <= c <= 'z' || '0' <= c <= '9' || '\U{4E00}' <= c <= '\U{9FFF}'
  }

  /** `.replace(/[^a-z0-9\u4e00-\u9fff]+/g, "")`. */
  function KeepComparable(s: string): string {
    if s == "" then "" else (if Comparable(s[0]) then [s[0]] else "") + KeepComparable(s[1..])
  }

  /** The first `n` pairs of neighbouring characters. */
  function Pairs(s: string, n: nat): set<string>
    requires n < |s|
  {
    if n == 0 then {} else Pairs(s, n - 1) + {s[n - 1..n + 1]}
  }

  function Bigrams(clean: Cleaner, text: string): set<string> {
    var normalized := KeepComparable(clean(text));
    if normalized == "" then {} else if |normalized| < 3 then {normalized} else Pairs(normalized, |normalized| - 1)
  }

  /** The loop of `buildComparableBigrams`. */
  method BuildComparableBigrams(clean: Cleaner, text: string) returns (grams: set<string>)
    ensures grams == Bigrams(clean, text)
  {
    var normalized := KeepComparable(clean(text));
    if normalized == "" {
      return {};
    }
    if |normalized| < 3 {
      return {normalized};
    }
    grams := {};
    for index := 0 to |normalized| - 1
      invariant grams == Pairs(normalized, index)
    {
      grams := grams + {normalized[index..index + 2]};
    }
  }

  function Similarity(clean: Cleaner, left: string, right: string): real {
    var l, r := clean(left), clean(right);
    if l == "" || r == "" then 0.0
    else if l == r || Includes(l, r) || Includes(r, l) then 1.0
    else
      var lb, rb := Bigrams(clean, l), Bigrams(clean, r);
      if lb == {} || rb == {} then 0.0 else Ratio(|lb * rb|, |lb + rb|)
  }

  function PairAt(s: string, i: nat): string
    requires i + 1 < |s|
  {
    s[i..i + 2]
  }

  /** The pairs of neighbouring characters of a text, or the text itself when it is shorter than three. */
  function Grams(s: string): set<string> {
    if s == "" then {} else if |s| < 3 then {s} else set i | 0 <= i < |s| - 1 :: PairAt(s, i)
  }

  lemma {:induction false} PairsMeaning(s: string, n: nat)
    requires n < |s|
    ensures Pairs(s, n) == set i | 0 <= i < n :: PairAt(s, i)
  {
    if n > 0 {
      PairsMeaning(s, n - 1);
      assert PairAt(s, n - 1) == s[n - 1..n + 1];
    }
  }

  /** By code point: 0 to 9, a to z, and the block of ideographs from U+4E00 to U+9FFF. */
  predicate IsKept(c: int) {
    48 <= c < 58 || 97 <= c < 123 || 19968 <= c < 40960
  }

  /** Comparing keeps the lower-case letters, digits and ideographs, in order. */
  lemma {:induction false} KeepMeaning(a: string, b: string)
    ensures KeepComparable(a + b) == KeepComparable(a) + KeepComparable(b)
    ensures |a| == 1 ==> KeepComparable(a) == if IsKept(a[0] as int) then a else ""
  {
    hide *;
    if a == "" {
      KeepStep(a);
      assert a + b == b;
    } else {
      KeepMeaning(a[1..], b);
      KeepStep(a);
      KeepStep(a + b);
      assert (a + b)[1..] == a[1..] + b;
      Regroup(if Comparable(a[0]) then [a[0]] else "", KeepComparable(a[1..]), KeepComparable(b));
      KeepOne(a);
    }
  }

  lemma KeepOne(a: string)
    requires a != ""
    ensures |a| == 1 ==> KeepComparable(a) == if IsKept(a[0] as int) then a else ""
  {
    ComparableIs(a[0]);
    hide Comparable;
    assert |a| == 1 ==> a == [a[0]] && a[1..] == "";
  }

  lemma Regroup(a: string, b: string, c: string)
    ensures a + b + c == a + (b + c)
  {
  }

  lemma KeepStep(s: string)
    ensures KeepComparable(s)
         == if s == "" then "" else (if Comparable(s[0]) then [s[0]] else "") + KeepComparable(s[1..])
  {
    hide Comparable;
  }

  lemma ComparableIs(c: char)
    ensures Comparable(c) <==> IsKept(c as int)
  {
  }

  lemma BigramsMeaning(clean: Cleaner, text: string)
    ensures Bigrams(clean, text) == Grams(KeepComparable(clean(text)))
  {
    var s := KeepComparable(clean(text));
    if |s| >= 3 {
      PairsMeaning(s, |s| - 1);
    }
  }

  /** One of the texts starts somewhere in the other. */
  ghost predicate Contained(l: string, r: string) {
    (exists i :: 0 <= i <= |l| && r <= l[i..]) || (exists i :: 0 <= i <= |r| && l <= r[i..])
  }

  /**
    The similarity of two snippets, on their cleaned texts: nothing for a blank one, 1 when one contains the
    other, and otherwise the share of common pairs of characters among all.
   */
  lemma SimilarityMeaning(clean: Cleaner, left: string, right: string)
    ensures var l, r, sim := clean(left), clean(right), Similarity(clean, left, right);
            var lg, rg := Grams(KeepComparable(clean(l))), Grams(KeepComparable(clean(r)));
            && (l == "" || r == "" ==> sim == 0.0)
            && (l != "" && r != "" && Contained(l, r) ==> sim == 1.0)
            && (l != "" && r != "" && !Contained(l, r) ==>
                  && (lg == {} || rg == {} ==> sim == 0.0)
                  && (lg != {} && rg != {} ==> |lg + rg| > 0 && sim * |lg + rg| as real == |lg * rg| as real))
  {
    var l, r := clean(left), clean(right);
    IncludesMeaning(l, r);
    IncludesMeaning(r, l);
    BigramsMeaning(clean, l);
    BigramsMeaning(clean, r);
    hide Bigrams, Grams, KeepComparable, Includes;
    if l == r {
      assert r <= l[0..];
    }
    var lg, rg := Grams(KeepComparable(clean(l))), Grams(KeepComparable(clean(r)));
    if lg != {} {
      var g :| g in lg;
      assert g in lg + rg;
    }
  }

  function Ratio(a: nat, b: nat): real {
    if b == 0 then 0.0 else a as real / b as real
  }

  method CountShared(left: set<string>, right: set<string>) returns (intersection: nat)
    ensures intersection == |left * right|
  {
    intersection := 0;
    var todo := left;
    while todo != {}
      invariant todo <= left
      invariant intersection == |(left - todo) * right|
      decreases |todo|
    {
      var token :| token in todo;
      ghost var before := (left - todo) * right;
      todo := todo - {token};
      if token in right {
        intersection := intersection + 1;
        assert (left - todo) * right == before + {token};
      } else {
        assert (left - todo) * right == before;
      }
    }
    assert (left - todo) * right == left * right;
  }

  /** `computeSnippetSimilarity`, whose loop counts the shared bigrams. */
  method ComputeSnippetSimilarity(clean: Cleaner, left: string, right: string) returns (r: real)
    ensures r == Similarity(clean, left, right)
    ensures 0.0 <= r <= 1.0
  {
    SimilarityRange(clean, left, right);
    var normalizedLeft, normalizedRight := clean(left), clean(right);
    if normalizedLeft == "" || normalizedRight == "" {
      return 0.0;
    }
    if normalizedLeft == normalizedRight || Includes(normalizedLeft, normalizedRight)
      || Includes(normalizedRight, normalizedLeft) {
      return 1.0;
    }
    var leftBigrams := BuildComparableBigrams(clean, normalizedLeft);
    var rightBigrams := BuildComparableBigrams(clean, normalizedRight);
    if |leftBigrams| == 0 || |rightBigrams| == 0 {
      return 0.0;
    }
    var intersection := CountShared(leftBigrams, rightBigrams);
    r := Ratio(intersection, |leftBigrams + rightBigrams|);
  }

  lemma SimilarityRange(clean: Cleaner, left: string, right: string)
    ensures 0.0 <= Similarity(clean, left, right) <= 1.0
  {
    var lb, rb := Bigrams(clean, clean(left)), Bigrams(clean, clean(right));
    assert |lb + rb| == |lb| + |rb| - |lb * rb|;
    assert lb * rb <= lb + rb;
    SubsetSize(lb * rb, lb + rb);
    RatioRange(|lb * rb|, |lb + rb|);
  }

  lemma RatioRange(a: nat, b: nat)
    requires a <= b
    ensures 0.0 <= Ratio(a, b) <= 1.0
  {
  }

  lemma SimilaritySymmetric(clean: Cleaner, left: string, right: string)
    ensures Similarity(clean, left, right) == Similarity(clean, right, left)
  {
    var lb, rb := Bigrams(clean, clean(left)), Bigrams(clean, clean(right));
    assert lb * rb == rb * lb && lb + rb == rb + lb;
  }

  predicate Similar(clean: Cleaner, left: string, right: string) {
    Similarity(clean, left, right) >= 0.72
  }

  /** Two snippets that are not blank are similar when one contains the other, or 72% of their pairs are common. */
  lemma SimilarMeaning(clean: Cleaner, left: string, right: string)
    ensures var l, r := clean(left), clean(right);
            var lg, rg := Grams(KeepComparable(clean(l))), Grams(KeepComparable(clean(r)));
            Similar(clean, left, right) <==>
              && l != "" && r != ""
              && (Contained(l, r) || (lg != {} && rg != {} && 100 * |lg * rg| >= 72 * |lg + rg|))
  {
    SimilarityMeaning(clean, left, right);
    hide Similarity, Grams, KeepComparable, Contained;
    var l, r, sim := clean(left), clean(right), Similarity(clean, left, right);
    var lg, rg := Grams(KeepComparable(clean(l))), Grams(KeepComparable(clean(r)));
    if l != "" && r != "" && !Contained(l, r) && lg != {} && rg != {} {
      AtLeast(sim, |lg * rg|, |lg + rg|);
    }
  }

  lemma AtLeast(sim: real, a: nat, b: nat)
    requires b > 0 && sim * b as real == a as real
    ensures sim >= 0.72 <==> 100 * a >= 72 * b
  {
    if sim >= 0.72 {
      assert (sim - 0.72) * b as real >= 0.0;
    } else {
      assert (0.72 - sim) * b as real > 0.0;
    }
  }

  // ----- grouping -----

  datatype Source = Source(id: string, snippet: string)

  /** A group: its first snippet, and the positions of its items in the list of sources. */
  datatype Group = Group(primary: string, items: seq<nat>)

  /** The first group that a snippet is similar to, or the number of groups. */
  function FindGroup(clean: Cleaner, groups: seq<Group>, snippet: string): (k: nat)
    ensures k <= |groups|
  {
    if groups == [] || Similar(clean, groups[0].primary, snippet) then 0
    else 1 + FindGroup(clean, groups[1..], snippet)
  }

  lemma {:induction false} FindGroupMeaning(clean: Cleaner, groups: seq<Group>, snippet: string)
    ensures var k := FindGroup(clean, groups, snippet);
            && (k < |groups| ==> Similar(clean, groups[k].primary, snippet))
            && (forall j :: 0 <= j < k ==> !Similar(clean, groups[j].primary, snippet))
  {
    hide Similar;
    if groups != [] && !Similar(clean, groups[0].primary, snippet) {
      FindGroupMeaning(clean, groups[1..], snippet);
    }
  }

  /** Position `i` stands in group `g`. */
  ghost predicate InGroup(groups: seq<Group>, g: nat, i: nat) {
    g < |groups| && i in groups[g].items
  }

  /** Groups and their members are in first-seen order, and each group has the snippet of its first member. */
  ghost predicate FirstSeenOrder(sources: seq<Source>, groups: seq<Group>, n: nat) {
    && (forall g :: 0 <= g < |groups| ==> groups[g].items != [] && Increasing(groups[g].items, n))
    && (forall g :: 0 <= g < |groups| ==>
          groups[g].items[0] < |sources| && groups[g].primary == sources[groups[g].items[0]].snippet)
    && (forall g, h :: 0 <= g < h < |groups| ==> groups[g].items[0] < groups[h].items[0])
  }

  ghost predicate Increasing(items: seq<nat>, n: nat) {
    (forall a, b :: 0 <= a < b < |items| ==> items[a] < items[b]) && forall a :: 0 <= a < |items| ==> items[a] < n
  }

  /** Of the first `n` sources, exactly those with a snippet are grouped, each in one group only. */
  ghost predicate Partitioned(sources: seq<Source>, groups: seq<Group>, n: nat)
    requires n <= |sources|
  {
    && (forall i: nat :: i < n && sources[i].snippet != "" ==> exists g: nat :: InGroup(groups, g, i))
    && (forall i: nat, g: nat :: InGroup(groups, g, i) ==> i < n && sources[i].snippet != "")
    && (forall i: nat, g: nat, h: nat :: InGroup(groups, g, i) && InGroup(groups, h, i) ==> g == h)
  }

  ghost predicate NonEmpty(groups: seq<Group>) {
    forall g :: 0 <= g < |groups| ==> groups[g].items != []
  }

  /**
    A member joined the first group with a similar primary snippet, or opened a new one; it is similar to the
    primary snippet of its own group exactly when that cleans to something.
   */
  ghost predicate Greedy(clean: Cleaner, sources: seq<Source>, groups: seq<Group>)
    requires NonEmpty(groups)
  {
    forall g: nat, i: nat :: InGroup(groups, g, i) && i < |sources| ==>
      && (i != groups[g].items[0] ==> Similar(clean, groups[g].primary, sources[i].snippet))
      && (Similar(clean, groups[g].primary, sources[i].snippet) <==> clean(groups[g].primary) != "")
      && forall h: nat :: h < g ==> !Similar(clean, groups[h].primary, sources[i].snippet)
  }

  ghost predicate Grouping(clean: Cleaner, sources: seq<Source>, groups: seq<Group>, n: nat)
    requires n <= |sources|
  {
    && NonEmpty(groups)
    && FirstSeenOrder(sources, groups, n) && Partitioned(sources, groups, n) && Greedy(clean, sources, groups)
  }

  function Join(groups: seq<Group>, k: nat, i: nat): seq<Group>
    requires k < |groups|
  {
    groups[k := Group(groups[k].primary, groups[k].items + [i])]
  }

  /** Source `n` goes into group `k`, an old or a new one. */
  ghost predicate Placed(groups: seq<Group>, groups1: seq<Group>, k: nat, n: nat) {
    forall g: nat, i: nat :: InGroup(groups1, g, i) <==> InGroup(groups, g, i) || (g == k && i == n)
  }

  lemma PlacedPartition(sources: seq<Source>, groups: seq<Group>, groups1: seq<Group>, k: nat, n: nat)
    requires n < |sources| && sources[n].snippet != ""
    requires Partitioned(sources, groups, n) && Placed(groups, groups1, k, n)
    ensures Partitioned(sources, groups1, n + 1)
  {
    hide InGroup;
    forall i: nat | i < n + 1 && sources[i].snippet != ""
      ensures exists g: nat :: InGroup(groups1, g, i)
    {
      if i < n {
        var g: nat :| InGroup(groups, g, i);
        assert InGroup(groups1, g, i);
      } else {
        assert InGroup(groups1, k, n);
      }
    }
  }

  lemma PlacedGreedy(clean: Cleaner, sources: seq<Source>, groups: seq<Group>, groups1: seq<Group>,
                     k: nat, n: nat)
    requires n < |sources| && NonEmpty(groups) && NonEmpty(groups1) && Greedy(clean, sources, groups)
    requires Placed(groups, groups1, k, n) && |groups| <= |groups1|
    requires forall g :: 0 <= g < |groups| ==>
               groups1[g].primary == groups[g].primary && groups1[g].items[0] == groups[g].items[0]
    requires k < |groups1| && (n != groups1[k].items[0] ==> Similar(clean, groups1[k].primary, sources[n].snippet))
    requires Similar(clean, groups1[k].primary, sources[n].snippet) <==> clean(groups1[k].primary) != ""
    requires k <= |groups| && forall h: nat :: h < k ==> !Similar(clean, groups[h].primary, sources[n].snippet)
    ensures Greedy(clean, sources, groups1)
  {
    hide Similar;
    forall g: nat, i: nat | InGroup(groups1, g, i) && i < |sources|
      ensures i != groups1[g].items[0] ==> Similar(clean, groups1[g].primary, sources[i].snippet)
      ensures Similar(clean, groups1[g].primary, sources[i].snippet) <==> clean(groups1[g].primary) != ""
      ensures forall h: nat :: h < g ==> !Similar(clean, groups1[h].primary, sources[i].snippet)
    {
      assert InGroup(groups, g, i) || (g == k && i == n);
    }
  }

  lemma {:induction false} JoinStep(clean: Cleaner, sources: seq<Source>, groups: seq<Group>, n: nat)
    requires n < |sources| && Grouping(clean, sources, groups, n) && sources[n].snippet != ""
    requires FindGroup(clean, groups, sources[n].snippet) < |groups|
    ensures Grouping(clean, sources, Join(groups, FindGroup(clean, groups, sources[n].snippet), n), n + 1)
  {
    hide Similar;
    hide FindGroup;
    FindGroupMeaning(clean, groups, sources[n].snippet);
    var k := FindGroup(clean, groups, sources[n].snippet);
    var groups1 := Join(groups, k, n);
    if clean(groups[k].primary) == "" {
      BlankIsUnlike(clean, groups[k].primary, sources[n].snippet);
    }
    assert Placed(groups, groups1, k, n);
    PlacedPartition(sources, groups, groups1, k, n);
    PlacedGreedy(clean, sources, groups, groups1, k, n);
    JoinOrder(sources, groups, k, n);
  }

  lemma JoinOrder(sources: seq<Source>, groups: seq<Group>, k: nat, n: nat)
    requires k < |groups| && FirstSeenOrder(sources, groups, n)
    ensures FirstSeenOrder(sources, Join(groups, k, n), n + 1)
  {
  }

  lemma {:induction false} OpenStep(clean: Cleaner, sources: seq<Source>, groups: seq<Group>, n: nat)
    requires n < |sources| && Grouping(clean, sources, groups, n) && sources[n].snippet != ""
    requires FindGroup(clean, groups, sources[n].snippet) == |groups|
    ensures Grouping(clean, sources, groups + [Group(sources[n].snippet, [n])], n + 1)
  {
    hide Similar;
    hide FindGroup;
    FindGroupMeaning(clean, groups, sources[n].snippet);
    var groups1 := groups + [Group(sources[n].snippet, [n])];
    SimilarToItself(clean, sources[n].snippet);
    assert Placed(groups, groups1, |groups|, n);
    PlacedPartition(sources, groups, groups1, |groups|, n);
    PlacedGreedy(clean, sources, groups, groups1, |groups|, n);
    OpenOrder(sources, groups, n);
  }

  lemma OpenOrder(sources: seq<Source>, groups: seq<Group>, n: nat)
    requires n < |sources| && FirstSeenOrder(sources, groups, n)
    ensures FirstSeenOrder(sources, groups + [Group(sources[n].snippet, [n])], n + 1)
  {
  }

  /** `buildCanonicalSourceGroups`, on sources by their snippets. */
  method BuildSourceGroups(clean: Cleaner, sources: seq<Source>) returns (groups: seq<Group>)
    ensures Grouping(clean, sources, groups, |sources|)
  {
    groups := [];
    for n := 0 to |sources|
      invariant Grouping(clean, sources, groups, n)
    {
      var snippet := sources[n].snippet;
      if snippet == "" {
        SkipStep(clean, sources, groups, n);
        continue;
      }
      var k := FindGroup(clean, groups, snippet);
      if k < |groups| {
        JoinStep(clean, sources, groups, n);
        groups := Join(groups, k, n);
        continue;
      }
      OpenStep(clean, sources, groups, n);
      groups := groups + [Group(snippet, [n])];
    }
  }

  lemma SkipStep(clean: Cleaner, sources: seq<Source>, groups: seq<Group>, n: nat)
    requires n < |sources| && Grouping(clean, sources, groups, n) && sources[n].snippet == ""
    ensures Grouping(clean, sources, groups, n + 1)
  {
  }

  /** No two groups have similar primary snippets. */
  lemma PrimariesApart(clean: Cleaner, sources: seq<Source>, groups: seq<Group>, g: nat, h: nat)
    requires Grouping(clean, sources, groups, |sources|) && g < |groups| && h < |groups| && g != h
    ensures !Similar(clean, groups[g].primary, groups[h].primary)
  {
    assert InGroup(groups, g, groups[g].items[0]) && InGroup(groups, h, groups[h].items[0]);
    SimilaritySymmetric(clean, groups[g].primary, groups[h].primary);
  }

  /** A snippet is similar to itself exactly when it cleans to something. */
  lemma SimilarToItself(clean: Cleaner, snippet: string)
    ensures Similar(clean, snippet, snippet) <==> clean(snippet) != ""
  {
  }

  lemma BlankIsUnlike(clean: Cleaner, left: string, right: string)
    requires clean(left) == ""
    ensures !Similar(clean, left, right)
  {
  }

  /** A founder whose cleaned snippet is blank stays alone: nothing is similar to it, not even itself. */
  lemma BlankStaysAlone(clean: Cleaner, sources: seq<Source>, groups: seq<Group>, g: nat, i: nat)
    requires Grouping(clean, sources, groups, |sources|) && InGroup(groups, g, i) && clean(groups[g].primary) == ""
    ensures i == groups[g].items[0] && groups[g].items == [i]
  {
    var items := groups[g].items;
    assert |items| > 1 ==> items[0] < items[1];
    forall a | 0 <= a < |items|
      ensures items[a] == items[0]
    {
      var j := items[a];
      assert InGroup(groups, g, j);
      BlankIsUnlike(clean, groups[g].primary, sources[j].snippet);
    }
  }

  // ----- repeated ids -----

  predicate HasId(items: seq<Source>, id: string) {
    exists k :: 0 <= k < |items| && items[k].id == id
  }

  /** The sources whose id no earlier one has, in order. */
  function FirstById(items: seq<Source>): seq<Source> {
    if items == [] then []
    else
      var before, last := items[..|items| - 1], items[|items| - 1];
      if HasId(before, last.id) then FirstById(before) else FirstById(before) + [last]
  }

  lemma HasIdSnoc(items: seq<Source>, last: Source, id: string)
    ensures HasId(items + [last], id) <==> HasId(items, id) || id == last.id
  {
    var all := items + [last];
    assert all[|items|] == last;
    if k :| 0 <= k < |items| && items[k].id == id {
      assert all[k].id == id;
    }
  }

  predicate IsFirst(items: seq<Source>, i: nat)
    requires i < |items|
  {
    !HasId(items[..i], items[i].id)
  }

  /** Every id is kept, once, by its first source; and the order is that of first appearance. */
  lemma FirstByIdMeaning(items: seq<Source>)
    ensures forall id :: HasId(FirstById(items), id) <==> HasId(items, id)
    ensures var r := FirstById(items); forall i, j :: 0 <= i < j < |r| ==> r[i].id != r[j].id
    ensures forall s :: s in FirstById(items) <==> exists i :: 0 <= i < |items| && items[i] == s && IsFirst(items, i)
    ensures forall n :: 0 <= n <= |items| ==> FirstById(items[..n]) <= FirstById(items)
  {
    FirstKept(items);
    FirstPrefix(items);
    FirstIds(items);
  }

  lemma {:induction false} FirstKept(items: seq<Source>)
    ensures forall s :: s in FirstById(items) <==> exists i :: 0 <= i < |items| && items[i] == s && IsFirst(items, i)
  {
    hide *;
    if items == [] {
      NoneFirst();
    } else {
      FirstKept(items[..|items| - 1]);
      FirstByIdSnoc(items);
      forall s
        ensures s in FirstById(items) <==> exists i :: 0 <= i < |items| && items[i] == s && IsFirst(items, i)
      {
        FirstKeptStep(items, s);
      }
    }
  }

  lemma NoneFirst()
    ensures FirstById([]) == []
  {
  }

  /** The first of their id among all but the last source, and the last if it is one. */
  lemma FirstKeptStep(items: seq<Source>, s: Source)
    requires items != []
    ensures var n := |items| - 1;
            ((exists i :: 0 <= i <= n && items[i] == s && IsFirst(items, i))
             <==> (exists i :: 0 <= i < n && items[..n][i] == s && IsFirst(items[..n], i))
                  || (s == items[n] && !HasId(items[..n], items[n].id)))
  {
    var n := |items| - 1;
    var before := items[..n];
    hide HasId;
    forall i | 0 <= i < n
      ensures before[i] == items[i] && (IsFirst(before, i) <==> IsFirst(items, i))
    {
      assert before[..i] == items[..i];
    }
    assert IsFirst(items, n) <==> !HasId(before, items[n].id);
    hide IsFirst;
    if i :| 0 <= i < n && before[i] == s && IsFirst(before, i) {
      assert items[i] == s && IsFirst(items, i);
    }
  }

  lemma FirstByIdSnoc(items: seq<Source>)
    requires items != []
    ensures var before, last := items[..|items| - 1], items[|items| - 1];
            FirstById(items) == if HasId(before, last.id) then FirstById(before) else FirstById(before) + [last]
  {
    hide HasId;
  }

  lemma {:induction false} FirstPrefix(items: seq<Source>)
    ensures forall n :: 0 <= n <= |items| ==> FirstById(items[..n]) <= FirstById(items)
  {
    hide HasId;
    forall n | 0 <= n <= |items|
      ensures FirstById(items[..n]) <= FirstById(items)
    {
      if n == |items| {
        assert items[..n] == items;
      } else {
        var before := items[..|items| - 1];
        FirstPrefix(before);
        assert before[..n] == items[..n];
      }
    }
  }

  lemma {:induction false} FirstIds(items: seq<Source>)
    ensures forall id :: HasId(FirstById(items), id) <==> HasId(items, id)
    ensures var r := FirstById(items); forall i, j :: 0 <= i < j < |r| ==> r[i].id != r[j].id
  {
    if items != [] {
      var before, last := items[..|items| - 1], items[|items| - 1];
      FirstIds(before);
      assert items == before + [last];
      forall id
        ensures HasId(items, id) <==> HasId(before, id) || id == last.id
        ensures HasId(FirstById(before) + [last], id) <==> HasId(FirstById(before), id) || id == last.id
      {
        HasIdSnoc(before, last, id);
        HasIdSnoc(FirstById(before), last, id);
      }
      assert forall i :: 0 <= i < |FirstById(before)| ==> HasId(FirstById(before), FirstById(before)[i].id);
    }
  }

  /** The items that convert to a source, converted. */
  function Converted<T>(items: seq<T>, convert: T -> Option<Source>): seq<Source> {
    if items == [] then []
    else
      Converted(items[..|items| - 1], convert)
      + match convert(items[|items| - 1]) { case None => [] case Some(s) => [s] }
  }

  lemma ConvertedStep<T>(items: seq<T>, i: nat, convert: T -> Option<Source>)
    requires i < |items|
    ensures var before, after := Converted(items[..i], convert), Converted(items[..i + 1], convert);
            match convert(items[i])
            case None => after == before
            case Some(s) =>
              && after == before + [s]
              && FirstById(after) == (if HasId(before, s.id) then FirstById(before) else FirstById(before) + [s])
              && forall id :: HasId(after, id) <==> HasId(before, id) || id == s.id
  {
    assert items[..i + 1][..i] == items[..i];
    var before := Converted(items[..i], convert);
    match convert(items[i])
    case None => assert before + [] == before;
    case Some(s) =>
      assert (before + [s])[..|before|] == before;
      forall id
        ensures HasId(before + [s], id) <==> HasId(before, id) || id == s.id
      {
        HasIdSnoc(before, s, id);
      }
  }

  /** `buildCanonicalAnswerSources`, with the conversion of an item as a parameter. */
  method BuildAnswerSources<T>(items: seq<T>, convert: T -> Option<Source>) returns (results: seq<Source>)
    ensures results == FirstById(Converted(items, convert))
  {
    var seen: set<string> := {};
    results := [];
    for i := 0 to |items|
      invariant results == FirstById(Converted(items[..i], convert))
      invariant forall id :: id in seen <==> HasId(Converted(items[..i], convert), id)
    {
      hide *;
      ConvertedStep(items, i, convert);
      var canonical := convert(items[i]);
      if canonical.None? || canonical.value.id in seen {
        continue;
      }
      seen := seen + {canonical.value.id};
      results := results + [canonical.value];
    }
    assert items[..|items|] == items;
  }
}
