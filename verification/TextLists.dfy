/**
  Distinct non-blank texts in order of first appearance: `uniqueItems` of `src/agent-workflow-state.mjs`
  and `uniqueLines` of `src/agent-token-governance.mjs`.
 */
module TextLists {
  import opened JsText
  import opened LineBreaks

  /** The normalised texts, without the blank ones. */
  function Normalized(items: seq<string>): seq<string> {
    if items == [] then []
    else
      var n := NormalizeText(items[|items| - 1]);
      Normalized(items[..|items| - 1]) + (if n == "" then [] else [n])
  }

  /** Each text once, where it first appears. */
  function Dedup(xs: seq<string>): seq<string> {
    if xs == [] then []
    else
      var done, x := Dedup(xs[..|xs| - 1]), xs[|xs| - 1];
      if x in done then done else done + [x]
  }

  function Take(xs: seq<string>, limit: nat): seq<string> {
    if |xs| <= limit then xs else xs[..limit]
  }

  /** The first `limit` distinct non-blank texts. */
  function FirstDistinct(items: seq<string>, limit: nat): seq<string> {
    Take(Dedup(Normalized(items)), limit)
  }

  lemma NormalizedSnoc(items: seq<string>, item: string)
    ensures var n := NormalizeText(item);
            Normalized(items + [item]) == if n == "" then Normalized(items) else Normalized(items) + [n]
  {
    hide NormalizeText;
    assert (items + [item])[..|items|] == items;
    assert Normalized(items) + [] == Normalized(items);
  }

  lemma {:induction false} NormalizedConcat(a: seq<string>, b: seq<string>)
    ensures Normalized(a + b) == Normalized(a) + Normalized(b)
  {
    hide *;
    if b == [] {
      NoneNormalized();
      assert a + b == a && Normalized(a) + [] == Normalized(a);
    } else {
      var c, x := b[..|b| - 1], b[|b| - 1];
      var more := if NormalizeText(x) == "" then [] else [NormalizeText(x)];
      NormalizedConcat(a, c);
      NormalizedSnoc(a + c, x);
      NormalizedSnoc(c, x);
      Regroup(a, c, [x]);
      assert b == c + [x];
      Regroup(Normalized(a), Normalized(c), more);
      assert Normalized(a) + Normalized(c) + [] == Normalized(a) + Normalized(c);
    }
  }

  lemma NoneNormalized()
    ensures Normalized([]) == []
  {
  }

  lemma Regroup(a: seq<string>, b: seq<string>, c: seq<string>)
    ensures a + b + c == a + (b + c)
  {
  }

  lemma DedupSnoc(xs: seq<string>, x: string)
    ensures Dedup(xs + [x]) == if x in Dedup(xs) then Dedup(xs) else Dedup(xs) + [x]
  {
    assert (xs + [x])[..|xs|] == xs;
  }

  /** Nothing is lost or repeated, and the order is that of first appearance. */
  lemma {:induction false} DedupMeaning(xs: seq<string>)
    ensures forall x :: x in Dedup(xs) <==> x in xs
    ensures forall i, j :: 0 <= i < j < |Dedup(xs)| ==> Dedup(xs)[i] != Dedup(xs)[j]
    ensures forall n :: 0 <= n <= |xs| ==> Dedup(xs[..n]) <= Dedup(xs)
  {
    if xs != [] {
      var ys, x := xs[..|xs| - 1], xs[|xs| - 1];
      DedupMeaning(ys);
      assert xs == ys + [x];
      forall n | 0 <= n <= |xs|
        ensures Dedup(xs[..n]) <= Dedup(xs)
      {
        if n < |xs| {
          assert xs[..n] == ys[..n];
        } else {
          assert xs[..n] == xs;
        }
      }
    }
  }

  lemma {:induction false} DedupTwice(a: seq<string>, b: seq<string>)
    ensures Dedup(Dedup(a) + b) == Dedup(a + b)
    ensures Dedup(a) <= Dedup(a + b)
  {
    hide Dedup;
    if b == [] {
      assert Dedup(a) + b == Dedup(a) && a + b == a;
      DistinctStays(Dedup(a));
      DedupMeaning(a);
    } else {
      var c, x := b[..|b| - 1], b[|b| - 1];
      DedupTwice(a, c);
      DedupSnoc(Dedup(a) + c, x);
      DedupSnoc(a + c, x);
      assert Dedup(a) + b == Dedup(a) + c + [x] && a + b == a + c + [x] by {
        assert b == c + [x];
      }
    }
  }

  lemma {:induction false} DistinctStays(xs: seq<string>)
    ensures (forall i, j :: 0 <= i < j < |xs| ==> xs[i] != xs[j]) ==> Dedup(xs) == xs
  {
    if xs != [] && forall i, j :: 0 <= i < j < |xs| ==> xs[i] != xs[j] {
      var ys, x := xs[..|xs| - 1], xs[|xs| - 1];
      DistinctStays(ys);
      assert xs == ys + [x];
      assert x !in ys;
    }
  }

  /** Cutting off before more is appended loses nothing of the first `limit`. */
  lemma TakeThenMore(a: seq<string>, b: seq<string>, limit: nat)
    ensures Take(Dedup(Take(Dedup(a), limit) + b), limit) == Take(Dedup(a + b), limit)
    ensures Take(Dedup(a), limit) <= Take(Dedup(a + b), limit)
  {
    var d := Dedup(a);
    DedupTwice(a, b);
    if |d| > limit {
      var t := d[..limit];
      DedupMeaning(a);
      DistinctStays(t);
      DedupTwice(t, b);
      assert Dedup(t + b)[..limit] == t;
      assert Dedup(a + b)[..limit] == t;
    }
  }

  /** The loop of `uniqueItems`. */
  method UniqueItems(items: seq<string>, limit: nat) returns (result: seq<string>)
    requires limit >= 1
    ensures result == FirstDistinct(items, limit)
  {
    hide NormalizeText;
    var seen: set<string> := {};
    result := [];
    for i := 0 to |items|
      invariant result == Dedup(Normalized(items[..i])) && |result| < limit
      invariant forall x :: x in seen <==> x in result
    {
      assert items[..i + 1] == items[..i] + [items[i]];
      NormalizedSnoc(items[..i], items[i]);
      var normalized := NormalizeText(items[i]);
      if normalized == "" || normalized in seen {
        if normalized != "" {
          DedupSnoc(Normalized(items[..i]), normalized);
        }
        continue;
      }
      DedupSnoc(Normalized(items[..i]), normalized);
      seen := seen + {normalized};
      result := result + [normalized];
      if |result| >= limit {
        LongEnough(items, i + 1, limit);
        return;
      }
    }
    assert items[..|items|] == items;
  }

  lemma LongEnough(items: seq<string>, n: nat, limit: nat)
    requires n <= |items| && |Dedup(Normalized(items[..n]))| == limit
    ensures FirstDistinct(items, limit) == Dedup(Normalized(items[..n]))
  {
    hide NormalizeText;
    hide Normalized;
    hide Dedup;
    NormalizedConcat(items[..n], items[n..]);
    assert items == items[..n] + items[n..];
    DedupTwice(Normalized(items[..n]), Normalized(items[n..]));
  }

  /** The loop of `uniqueLines`. */
  method UniqueLines(lines: seq<string>) returns (result: seq<string>)
    ensures result == Dedup(Normalized(lines))
  {
    hide NormalizeText;
    var seen: set<string> := {};
    result := [];
    for i := 0 to |lines|
      invariant result == Dedup(Normalized(lines[..i]))
      invariant forall x :: x in seen <==> x in result
    {
      assert lines[..i + 1] == lines[..i] + [lines[i]];
      NormalizedSnoc(lines[..i], lines[i]);
      var normalized := NormalizeText(lines[i]);
      if normalized == "" || normalized in seen {
        if normalized != "" {
          DedupSnoc(Normalized(lines[..i]), normalized);
        }
        continue;
      }
      DedupSnoc(Normalized(lines[..i]), normalized);
      seen := seen + {normalized};
      result := result + [normalized];
    }
    assert lines[..|lines|] == lines;
  }

  // ----- stable texts -----

  /** No stray CR, so that normalising leaves the normalised text alone (LineBreaks.IdempotentIff). */
  predicate Stable(item: string) {
    !LeavesCrLf(item)
  }

  ghost predicate AllStable(items: seq<string>) {
    forall i :: 0 <= i < |items| ==> Stable(items[i])
  }

  /** Normalised non-blank texts that stay as they are. */
  ghost predicate Settled(xs: seq<string>) {
    forall i :: 0 <= i < |xs| ==> xs[i] != "" && NormalizeText(xs[i]) == xs[i]
  }

  lemma {:induction false} NormalizedSettled(items: seq<string>)
    requires AllStable(items)
    ensures Settled(Normalized(items))
  {
    if items != [] {
      NormalizedSettled(items[..|items| - 1]);
      IdempotentIff(items[|items| - 1]);
      assert Stable(items[|items| - 1]);
    }
  }

  lemma {:induction false} SettledStays(xs: seq<string>)
    requires Settled(xs)
    ensures Normalized(xs) == xs
  {
    hide Normalized;
    hide NormalizeText;
    if xs == [] {
      NoneNormalized();
    } else {
      var before, x := xs[..|xs| - 1], xs[|xs| - 1];
      SettledStays(before);
      NormalizedSnoc(before, x);
      assert xs == before + [x];
    }
  }

  lemma FirstDistinctSettled(items: seq<string>, limit: nat)
    requires AllStable(items)
    ensures Settled(FirstDistinct(items, limit))
  {
    NormalizedSettled(items);
    DedupMeaning(Normalized(items));
    var d := Dedup(Normalized(items));
    forall i | 0 <= i < |d|
      ensures d[i] != "" && NormalizeText(d[i]) == d[i]
    {
      assert d[i] in Normalized(items);
    }
  }

  /** On stable items, adding to the first `limit` distinct ones is taking the first `limit` of all. */
  lemma FirstDistinctMore(a: seq<string>, b: seq<string>, limit: nat)
    requires AllStable(a)
    ensures FirstDistinct(FirstDistinct(a, limit) + b, limit) == FirstDistinct(a + b, limit)
    ensures FirstDistinct(a, limit) <= FirstDistinct(a + b, limit)
    ensures FirstDistinct(FirstDistinct(a, limit), limit) == FirstDistinct(a, limit)
  {
    var kept := FirstDistinct(a, limit);
    FirstDistinctSettled(a, limit);
    SettledStays(kept);
    NormalizedConcat(kept, b);
    NormalizedConcat(a, b);
    TakeThenMore(Normalized(a), Normalized(b), limit);
    TakeThenMore(Normalized(a), [], limit);
    assert kept + [] == kept && Normalized(a) + [] == Normalized(a);
  }
}
