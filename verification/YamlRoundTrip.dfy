/**
  Laying a value out two spaces a level and reading the lines back gives the same value: first for
  lines, then for whole texts.
 */
module YamlRoundTrip {
  import opened PyText
  import opened Yaml
  import opened YamlShape
  import opened YamlSpelling

  // ----- the layout -----

  function Layout(v: Value, n: nat): seq<Line>
    decreases v, 1
  {
    match v
    case Leaf(_) => []
    case List(items) => LayoutItems(items, n)
    case Dict(es) => LayoutEntries(es, n)
  }

  function LayoutEntries(es: seq<Entry>, n: nat): seq<Line>
    decreases es, 0
  {
    if es == [] then [] else LayoutEntry(es[0], n) + LayoutEntries(es[1..], n)
  }

  function LayoutEntry(e: Entry, n: nat): (r: seq<Line>)
    ensures r != [] && r[0].indent == n
    decreases e, 0
  {
    match e.value
    case Leaf(sc) => [Line(n, EntryText(e.key, sc))]
    case _ => [Line(n, e.key + ":")] + Layout(e.value, n + 2)
  }

  function LayoutItems(items: seq<Value>, n: nat): seq<Line>
    decreases items, 0
  {
    if items == [] then [] else LayoutItem(items[0], n) + LayoutItems(items[1..], n)
  }

  /** A dictionary starts on the dash line: if its first entry is nested, with a stand-in that the entry overwrites. */
  function LayoutItem(v: Value, n: nat): (r: seq<Line>)
    ensures r != [] ==> r[0].indent == n
    decreases v, 0
  {
    match v
    case Leaf(sc) => [Line(n, ItemText(sc))]
    case List(_) => []
    case Dict(es) =>
      if es == [] then []
      else if es[0].value.Leaf? then
        [Line(n, "- " + EntryText(es[0].key, es[0].value.scalar))] + LayoutEntries(es[1..], n + 2)
      else [Line(n, "- " + EntryText(es[0].key, Str("")))] + LayoutEntries(es, n + 2)
  }

  /** What the parsers can yield: no key opens like a list item, except the first of an item, before a scalar. */
  predicate Plain(v: Value) {
    match v
    case Leaf(_) => true
    case List(items) => forall i :: 0 <= i < |items| ==> ItemPlain(items[i])
    case Dict(es) => PlainEntries(es)
  }

  predicate PlainEntries(es: seq<Entry>) {
    forall i :: 0 <= i < |es| ==> !IsItem(es[i].key) && Plain(es[i].value)
  }

  predicate ItemPlain(v: Value) {
    v.Dict? && v.entries != [] ==>
      (v.entries[0].value.Leaf? || !IsItem(v.entries[0].key))
      && forall i :: 0 <= i < |v.entries| ==> Plain(v.entries[i].value) && (i > 0 ==> !IsItem(v.entries[i].key))
  }

  // ----- one line -----

  lemma {:induction false} ColonAfter(key: string, rest: string)
    requires ':' !in key
    ensures FirstColon(key + ":" + rest) == |key|
  {
    var s := key + ":" + rest;
    if key == "" {
      assert s[0] == ':';
    } else {
      assert s[0] == key[0] && s[1..] == key[1..] + ":" + rest;
      ColonAfter(key[1..], rest);
    }
  }

  /** Splitting a written pair gives back the key and a spelling of the scalar. */
  lemma PairRoundTrip(key: string, sc: Scalar)
    requires KeyShape(key)
    ensures var content := EntryText(key, sc);
            && ':' in content && SplitPair(content) == (key, Spelled(key + ":", sc)) && Trimmed(content)
            && (IsItem(content) <==> IsItem(key))
    ensures Spells(Spelled(key + ":", sc), sc)
  {
    hide *;
    var shown := Spelled(key + ":", sc);
    SpelledRoundTrip(key + ":", sc);
    SpelledTrimmed(key + ":", sc);
    EntryTextIs(key, sc);
    var gap := AttachGap(key, shown);
    PairSplit(key, gap, shown);
  }

  lemma SpelledTrimmed(head: string, sc: Scalar)
    ensures Trimmed(Spelled(head, sc)) && ParseScalar(Spelled(head, sc)) == sc
  {
    SpelledRoundTrip(head, sc);
    hide Spelled;
    hide ParseScalar;
    hide Trimmed;
  }

  lemma AttachGap(key: string, shown: string) returns (gap: string)
    ensures gap == "" || gap == " "
    ensures Attach(key + ":", shown) == key + ":" + gap + shown
  {
    gap := if shown != "" && shown[0] == '#' then "" else " ";
    assert key + ":" + "" + shown == key + ":" + shown;
  }

  lemma PairSplit(key: string, gap: string, shown: string)
    requires KeyShape(key) && Trimmed(shown) && (gap == "" || gap == " ")
    ensures var content := key + ":" + gap + shown;
            ':' in content && SplitPair(content) == (key, shown) && Trimmed(content)
            && (IsItem(content) <==> IsItem(key))
  {
    hide *;
    var content := key + ":" + gap + shown;
    PairEnds(key, gap, shown);
    StripKey(key);
    GapSpace(gap);
    StripPadding(gap, shown);
    NoColon(key);
    ColonAfter(key, gap + shown);
    assert content == key + ":" + (gap + shown);
    assert content[|key|] == ':';
    assert content[..|key|] == key && content[|key| + 1..] == gap + shown;
    PairIs(content);
  }

  lemma NoColon(key: string)
    requires KeyShape(key)
    ensures ':' !in key
  {
  }

  lemma GapSpace(gap: string)
    requires gap == "" || gap == " "
    ensures forall i :: 0 <= i < |gap| ==> IsSpace(gap[i])
  {
  }

  lemma StripKey(key: string)
    requires KeyShape(key)
    ensures Strip(key) == key
  {
    if key != "" {
      StripTrimmed(key);
    }
  }

  lemma PairEnds(key: string, gap: string, shown: string)
    requires KeyShape(key) && Trimmed(shown) && (gap == "" || gap == " ")
    ensures var content := key + ":" + gap + shown; Trimmed(content) && (IsItem(content) <==> IsItem(key))
  {
    hide IsSpace;
    var content := key + ":" + gap + shown;
    assert content[|content| - 1] == shown[|shown| - 1];
    assert content[0] == if key != "" then key[0] else ':';
    assert |key| >= 2 ==> content[1] == key[1];
    ColonVisible();
  }

  lemma ColonVisible()
    ensures !IsSpace(':')
  {
  }

  lemma HeaderRoundTrip(key: string)
    requires KeyShape(key)
    ensures ':' in key + ":" && SplitPair(key + ":") == (key, "") && Trimmed(key + ":")
    ensures IsItem(key + ":") <==> IsItem(key)
  {
    ColonAfter(key, "");
    var content := key + ":";
    assert content == key + ":" + "";
    assert content[..|key|] == key && content[|key| + 1..] == "";
    assert content[|key|] == ':';
    if key != "" {
      StripTrimmed(key);
      assert content[0] == key[0];
    }
  }

  lemma PayloadRoundTrip(payload: string)
    requires Trimmed(payload)
    ensures var content := "- " + payload; IsItem(content) && Strip(content[2..]) == payload && Trimmed(content)
  {
    var content := "- " + payload;
    assert content[2..] == payload;
    StripTrimmed(payload);
    assert content[|content| - 1] == payload[|payload| - 1];
  }

  // ----- blocks -----

  /** The lines from `idx` on are `block` and then `suffix`. */
  ghost predicate LaidOut(lines: seq<Line>, idx: nat, block: seq<Line>, suffix: seq<Line>) {
    idx <= |lines| && lines[idx..] == block + suffix
  }

  lemma LaidOutSplit(lines: seq<Line>, idx: nat, first: seq<Line>, second: seq<Line>, suffix: seq<Line>)
    requires LaidOut(lines, idx, first + second, suffix)
    ensures LaidOut(lines, idx, first, second + suffix)
    ensures LaidOut(lines, idx + |first|, second, suffix)
  {
    assert lines[idx..] == first + (second + suffix);
    assert lines[idx + |first|..] == lines[idx..][|first|..];
  }

  lemma LaidOutHead(lines: seq<Line>, idx: nat, first: Line, more: seq<Line>, suffix: seq<Line>)
    requires LaidOut(lines, idx, [first] + more, suffix)
    ensures idx < |lines| && lines[idx] == first
    ensures LaidOut(lines, idx + 1, more, suffix)
  {
    LaidOutSplit(lines, idx, [first], more, suffix);
    assert lines[idx] == lines[idx..][0];
  }

  /** The suffix does not reach into a block indented by `n`. */
  ghost predicate Shallower(suffix: seq<Line>, n: nat) {
    suffix == [] || suffix[0].indent < n
  }

  lemma ShallowNext(lines: seq<Line>, idx: nat, suffix: seq<Line>, n: nat)
    requires LaidOut(lines, idx, [], suffix) && Shallower(suffix, n)
    ensures idx < |lines| ==> lines[idx].indent < n
  {
    if idx < |lines| {
      assert lines[idx] == lines[idx..][0];
    }
  }

  /** A laid-out block is read back, and the parser stops exactly at the shallower suffix. */
  lemma {:induction false} BlockRoundTrip(v: Value, lines: seq<Line>, idx: nat, n: nat, suffix: seq<Line>)
    requires !v.Leaf? && Shaped(v) && Plain(v)
    requires LaidOut(lines, idx, Layout(v, n), suffix) && Shallower(suffix, n)
    ensures ParseBlock(lines, idx, n) == Ok(v, idx + |Layout(v, n)|)
    decreases v, 1
  {
    hide ParseItems;
    hide ParseEntries;
    match v
    case List(items) =>
      ItemsRoundTrip(items, [], lines, idx, n, suffix);
      assert [] + items == items;
      ItemFirstLine(items[0], n);
      assert lines[idx] == lines[idx..][0] == LayoutItem(items[0], n)[0];
    case Dict(es) =>
      if es == [] {
        ShallowNext(lines, idx, suffix, n);
      } else {
        EntriesRoundTrip(es, [], lines, idx, n, suffix);
        assert [] + es == es;
        EntriesStart(es, lines, idx, n, suffix);
      }
  }

  lemma ItemFirstLine(v: Value, n: nat)
    requires ItemShape(v)
    ensures var block := LayoutItem(v, n); block != [] && block[0].indent == n && IsItem(block[0].content)
  {
    hide EntryText;
    hide Spelled;
    if v.Leaf? {
      ItemTextIs(v.scalar);
      SpelledRoundTrip("-", v.scalar);
    }
  }

  lemma EntryFirstLine(e: Entry, n: nat)
    requires KeyShape(e.key) && !IsItem(e.key)
    ensures var block := LayoutEntry(e, n); block[0].indent == n && !IsItem(block[0].content)
  {
    hide EntryText;
    if e.value.Leaf? {
      PairRoundTrip(e.key, e.value.scalar);
    }
  }

  lemma {:induction false} EntriesRoundTrip(es: seq<Entry>, done: seq<Entry>, lines: seq<Line>, idx: nat, n: nat,
                                            suffix: seq<Line>)
    requires EntriesShape(done + es) && PlainEntries(es)
    requires LaidOut(lines, idx, LayoutEntries(es, n), suffix) && Shallower(suffix, n)
    ensures ParseEntries(lines, idx, n, done) == Ok(done + es, idx + |LayoutEntries(es, n)|)
    decreases es, 0
  {
    hide *;
    if es == [] {
      NoEntries(done, lines, idx, n, suffix);
      assert done + es == done;
    } else {
      var e, rest := es[0], es[1..];
      LayoutEntriesCons(es, n, suffix);
      FirstEntry(done, es);
      LaidOutSplit(lines, idx, LayoutEntry(e, n), LayoutEntries(rest, n), suffix);
      EntryRoundTrip(e, lines, idx, n, LayoutEntries(rest, n) + suffix);
      assert done + [e] + rest == done + es;
      FreshKey(done, e, rest);
      NextEntry(lines, idx, n, done, e, idx + |LayoutEntry(e, n)|);
      EntriesRoundTrip(rest, done + [e], lines, idx + |LayoutEntry(e, n)|, n, suffix);
    }
  }

  lemma NoEntries(done: seq<Entry>, lines: seq<Line>, idx: nat, n: nat, suffix: seq<Line>)
    requires LaidOut(lines, idx, LayoutEntries([], n), suffix) && Shallower(suffix, n)
    ensures ParseEntries(lines, idx, n, done) == Ok(done, idx) && LayoutEntries([], n) == []
  {
    ShallowNext(lines, idx, suffix, n);
  }

  lemma FirstEntry(done: seq<Entry>, es: seq<Entry>)
    requires es != [] && EntriesShape(done + es) && PlainEntries(es)
    ensures KeyShape(es[0].key) && !IsItem(es[0].key) && Shaped(es[0].value) && Plain(es[0].value)
    ensures DistinctKeys(done + es) && PlainEntries(es[1..])
  {
    hide KeyShape;
    hide DistinctKeys;
    hide Shaped;
    hide Plain;
    assert (done + es)[|done|] == es[0];
  }

  lemma NextEntry(lines: seq<Line>, idx: nat, n: nat, done: seq<Entry>, e: Entry, next: nat)
    requires AtEntry(lines, idx, n) && ParseEntry(lines, idx, n) == Ok(e, next)
    ensures ParseEntries(lines, idx, n, done) == ParseEntries(lines, next, n, Put(done, e.key, e.value))
  {
    hide ParseEntry;
    hide Put;
  }

  lemma LayoutEntriesCons(es: seq<Entry>, n: nat, suffix: seq<Line>)
    requires es != [] && Shallower(suffix, n)
    ensures LayoutEntries(es, n) == LayoutEntry(es[0], n) + LayoutEntries(es[1..], n)
    ensures var after := LayoutEntries(es[1..], n) + suffix; after == [] || after[0].indent <= n
  {
  }

  lemma LayoutItemsCons(items: seq<Value>, n: nat)
    requires items != []
    ensures LayoutItems(items, n) == LayoutItem(items[0], n) + LayoutItems(items[1..], n)
    ensures items[1..] == [] ==> LayoutItems(items[1..], n) == []
    ensures items[1..] != [] && ItemShape(items[1]) ==>
              LayoutItems(items[1..], n) != [] && LayoutItems(items[1..], n)[0].indent == n
  {
    hide LayoutItem;
    if items[1..] != [] && ItemShape(items[1]) {
      ItemFirstLine(items[1], n);
    }
  }

  lemma FreshKey(done: seq<Entry>, e: Entry, rest: seq<Entry>)
    requires DistinctKeys(done + [e] + rest)
    ensures Put(done, e.key, e.value) == done + [e]
  {
    PutMeaning(done, e.key, e.value);
    var all := done + [e] + rest;
    assert all[|done|] == e;
    assert forall i :: 0 <= i < |done| ==> all[i] == done[i];
  }

  lemma LeafEntryStep(lines: seq<Line>, idx: nat, n: nat, e: Entry)
    requires KeyShape(e.key) && e.value.Leaf?
    requires AtEntry(lines, idx, n) && lines[idx].content == EntryText(e.key, e.value.scalar)
    ensures ParseEntry(lines, idx, n) == Ok(e, idx + 1)
  {
    PairRoundTrip(e.key, e.value.scalar);
    hide EntryText;
    hide Spelled;
    hide ParseScalar;
  }

  lemma BlockEntryStep(lines: seq<Line>, idx: nat, n: nat, e: Entry, next: nat)
    requires KeyShape(e.key)
    requires AtEntry(lines, idx, n) && lines[idx].content == e.key + ":"
    requires ParseBlock(lines, idx + 1, n + 2) == Ok(e.value, next)
    ensures ParseEntry(lines, idx, n) == Ok(e, next)
  {
    HeaderRoundTrip(e.key);
  }

  lemma LeafItemStep(lines: seq<Line>, idx: nat, n: nat, sc: Scalar)
    requires ItemShape(Leaf(sc))
    requires AtItem(lines, idx, n) && lines[idx].content == ItemText(sc)
    ensures ParseItem(lines, idx, n) == Ok(Leaf(sc), idx + 1)
  {
    hide *;
    var shown := Spelled("-", sc);
    ItemTextIs(sc);
    SpelledRoundTrip("-", sc);
    SpelledTrimmed("-", sc);
    NoColonShown(sc, shown);
    AttachDash(shown);
    PayloadRoundTrip(shown);
    ScalarItem(lines, idx, n, shown);
  }

  lemma AttachDash(shown: string)
    ensures Attach("-", shown) == "- " + shown
  {
  }

  lemma NoColonShown(sc: Scalar, shown: string)
    requires ItemShape(Leaf(sc)) && Spells(shown, sc)
    ensures ':' !in shown && shown != ""
  {
    hide ParseScalar;
  }

  lemma ScalarItem(lines: seq<Line>, idx: nat, n: nat, payload: string)
    requires AtItem(lines, idx, n) && Strip(lines[idx].content[2..]) == payload && payload != "" && ':' !in payload
    ensures ParseItem(lines, idx, n) == Ok(Leaf(ParseScalar(payload)), idx + 1)
  {
    hide Strip;
    hide ParseScalar;
    hide ParseBlock;
  }

  lemma DictItemStep(lines: seq<Line>, idx: nat, n: nat, e: Entry, rest: seq<Entry>, next: nat)
    requires KeyShape(e.key) && e.value.Leaf? && DistinctKeys([e] + rest)
    requires AtItem(lines, idx, n) && lines[idx].content == "- " + EntryText(e.key, e.value.scalar)
    requires if rest == [] then next == idx + 1 && (next < |lines| ==> lines[next].indent <= n)
             else AtEntry(lines, idx + 1, n + 2) && ParseEntries(lines, idx + 1, n + 2, []) == Ok(rest, next)
    ensures ParseItem(lines, idx, n) == Ok(Dict([e] + rest), next)
  {
    hide *;
    var payload := EntryText(e.key, e.value.scalar);
    FirstFieldRoundTrip(e.key, e.value.scalar);
    PayloadRoundTrip(payload);
    assert Entry(e.key, Leaf(e.value.scalar)) == e;
    UpdateAppends([e], rest);
    DictItemCases(lines, idx, n, payload);
    if rest == [] {
      assert [e] + rest == [e];
    } else {
      DeeperBlock(lines, idx, n, rest, next);
    }
  }

  /** With a nested first entry, the child block holds the whole dictionary, and overwrites the stand-in. */
  lemma NestedItemStep(lines: seq<Line>, idx: nat, n: nat, es: seq<Entry>, next: nat)
    requires es != [] && KeyShape(es[0].key) && DistinctKeys(es)
    requires AtItem(lines, idx, n) && lines[idx].content == "- " + EntryText(es[0].key, Str(""))
    requires AtEntry(lines, idx + 1, n + 2) && ParseEntries(lines, idx + 1, n + 2, []) == Ok(es, next)
    ensures ParseItem(lines, idx, n) == Ok(Dict(es), next)
  {
    hide *;
    var key, rest := es[0].key, es[1..];
    FirstFieldRoundTrip(key, Str(""));
    PayloadRoundTrip(EntryText(key, Str("")));
    DictItemCases(lines, idx, n, EntryText(key, Str("")));
    DeeperBlock(lines, idx, n, es, next);
    assert [es[0]] + rest == es;
    UpdateAppends([es[0]], rest);
    StandInOverwritten(es, Leaf(Str("")));
  }

  lemma StandInOverwritten(es: seq<Entry>, standIn: Value)
    requires es != []
    ensures Update([Entry(es[0].key, standIn)], es) == Update([es[0]], es[1..])
  {
    assert Put([Entry(es[0].key, standIn)], es[0].key, es[0].value) == [es[0]] + [Entry(es[0].key, standIn)][1..];
  }

  lemma DictItemCases(lines: seq<Line>, idx: nat, n: nat, payload: string)
    requires AtItem(lines, idx, n) && Strip(lines[idx].content[2..]) == payload && ':' in payload
    ensures !(idx + 1 < |lines| && lines[idx + 1].indent > n) ==>
              ParseItem(lines, idx, n) == Ok(Dict(FirstField(payload)), idx + 1)
    ensures var r := ParseBlock(lines, idx + 1, n + 2);
            idx + 1 < |lines| && lines[idx + 1].indent > n && r.Ok? && r.value.Dict? ==>
              ParseItem(lines, idx, n) == Ok(Dict(Update(FirstField(payload), r.value.entries)), r.next)
  {
    hide ParseBlock;
    hide FirstField;
    hide Strip;
    hide Update;
  }

  lemma DeeperBlock(lines: seq<Line>, idx: nat, n: nat, rest: seq<Entry>, next: nat)
    requires AtEntry(lines, idx + 1, n + 2) && ParseEntries(lines, idx + 1, n + 2, []) == Ok(rest, next)
    ensures idx + 1 < |lines| && lines[idx + 1].indent > n
    ensures ParseBlock(lines, idx + 1, n + 2) == Ok(Dict(rest), next)
  {
    hide ParseEntries;
  }

  lemma LayoutEntryCases(e: Entry, n: nat)
    requires KeyShape(e.key) && !IsItem(e.key)
    ensures var block := LayoutEntry(e, n);
            && !IsItem(block[0].content)
            && block == if e.value.Leaf? then [Line(n, EntryText(e.key, e.value.scalar))] + []
                        else [Line(n, e.key + ":")] + Layout(e.value, n + 2)
  {
    EntryFirstLine(e, n);
  }

  lemma LaidOutEntry(lines: seq<Line>, idx: nat, n: nat, first: Line, more: seq<Line>, suffix: seq<Line>)
    requires LaidOut(lines, idx, [first] + more, suffix) && (suffix == [] || suffix[0].indent <= n)
    requires first.indent == n && !IsItem(first.content)
    ensures AtEntry(lines, idx, n) && lines[idx] == first
    ensures LaidOut(lines, idx + 1, more, suffix) && Shallower(suffix, n + 2)
  {
    LaidOutHead(lines, idx, first, more, suffix);
  }

  lemma {:induction false} EntryRoundTrip(e: Entry, lines: seq<Line>, idx: nat, n: nat, suffix: seq<Line>)
    requires KeyShape(e.key) && !IsItem(e.key) && Shaped(e.value) && Plain(e.value)
    requires LaidOut(lines, idx, LayoutEntry(e, n), suffix)
    requires suffix == [] || suffix[0].indent <= n
    ensures AtEntry(lines, idx, n) && ParseEntry(lines, idx, n) == Ok(e, idx + |LayoutEntry(e, n)|)
    decreases e, 0
  {
    hide *;
    LayoutEntryCases(e, n);
    if e.value.Leaf? {
      var first := Line(n, EntryText(e.key, e.value.scalar));
      LaidOutEntry(lines, idx, n, first, [], suffix);
      LeafEntryStep(lines, idx, n, e);
    } else {
      var first, block := Line(n, e.key + ":"), Layout(e.value, n + 2);
      LaidOutEntry(lines, idx, n, first, block, suffix);
      BlockRoundTrip(e.value, lines, idx + 1, n + 2, suffix);
      BlockEntryStep(lines, idx, n, e, idx + 1 + |block|);
    }
  }

  lemma {:induction false} ItemsRoundTrip(items: seq<Value>, done: seq<Value>, lines: seq<Line>, idx: nat, n: nat,
                                          suffix: seq<Line>)
    requires forall i :: 0 <= i < |items| ==> ItemShape(items[i]) && Shaped(items[i])
    requires forall i :: 0 <= i < |items| ==> ItemPlain(items[i])
    requires LaidOut(lines, idx, LayoutItems(items, n), suffix) && Shallower(suffix, n)
    ensures ParseItems(lines, idx, n, done) == Ok(done + items, idx + |LayoutItems(items, n)|)
    decreases items, 0
  {
    hide ParseItem;
    hide Shaped;
    hide ItemPlain;
    hide LayoutItem;
    if items == [] {
      ShallowNext(lines, idx, suffix, n);
      assert done + items == done;
    } else {
      var item, rest := items[0], items[1..];
      LayoutItemsCons(items, n);
      hide LayoutItems;
      LaidOutSplit(lines, idx, LayoutItem(item, n), LayoutItems(rest, n), suffix);
      ItemRoundTrip(item, lines, idx, n, LayoutItems(rest, n) + suffix);
      assert done + [item] + rest == done + items;
      ItemsRoundTrip(rest, done + [item], lines, idx + |LayoutItem(item, n)|, n, suffix);
    }
  }

  lemma {:induction false} ItemRoundTrip(v: Value, lines: seq<Line>, idx: nat, n: nat, suffix: seq<Line>)
    requires ItemShape(v) && Shaped(v) && ItemPlain(v)
    requires LaidOut(lines, idx, LayoutItem(v, n), suffix)
    requires suffix == [] || suffix[0].indent <= n
    ensures AtItem(lines, idx, n) && ParseItem(lines, idx, n) == Ok(v, idx + |LayoutItem(v, n)|)
    decreases v, 0
  {
    hide ParseItem;
    match v
    case Leaf(sc) =>
      ItemFirstLine(v, n);
      assert [LayoutItem(v, n)[0]] + [] == LayoutItem(v, n);
      LaidOutHead(lines, idx, LayoutItem(v, n)[0], [], suffix);
      LeafItemStep(lines, idx, n, sc);
    case Dict(es) =>
      if es[0].value.Leaf? {
        DictItemRoundTrip(es, lines, idx, n, suffix);
      } else {
        NestedItemRoundTrip(es, lines, idx, n, suffix);
      }
  }

  lemma {:induction false} DictItemRoundTrip(es: seq<Entry>, lines: seq<Line>, idx: nat, n: nat, suffix: seq<Line>)
    requires es != [] && EntriesShape(es) && ItemPlain(Dict(es)) && es[0].value.Leaf?
    requires LaidOut(lines, idx, LayoutItem(Dict(es), n), suffix)
    requires suffix == [] || suffix[0].indent <= n
    ensures AtItem(lines, idx, n)
    ensures ParseItem(lines, idx, n) == Ok(Dict(es), idx + |LayoutItem(Dict(es), n)|)
    decreases es, 2
  {
    hide *;
    var e, rest := es[0], es[1..];
    var more := LayoutEntries(rest, n + 2);
    var first := Line(n, "- " + EntryText(e.key, e.value.scalar));
    DictItemLayout(es, n);
    DictItemParts(es);
    LaidOutItem(lines, idx, n, first, more, suffix);
    if rest == [] {
      NoEntries([], lines, idx + 1, n + 2, suffix);
      ShallowItem(lines, idx + 1, n, suffix);
    } else {
      assert [] + rest == rest;
      EntriesRoundTrip(rest, [], lines, idx + 1, n + 2, suffix);
      EntriesStart(rest, lines, idx + 1, n + 2, suffix);
    }
    DictItemStep(lines, idx, n, e, rest, idx + 1 + |more|);
  }

  lemma {:induction false} NestedItemRoundTrip(es: seq<Entry>, lines: seq<Line>, idx: nat, n: nat, suffix: seq<Line>)
    requires es != [] && EntriesShape(es) && ItemPlain(Dict(es)) && !es[0].value.Leaf?
    requires LaidOut(lines, idx, LayoutItem(Dict(es), n), suffix)
    requires suffix == [] || suffix[0].indent <= n
    ensures AtItem(lines, idx, n)
    ensures ParseItem(lines, idx, n) == Ok(Dict(es), idx + |LayoutItem(Dict(es), n)|)
    decreases es, 2
  {
    hide *;
    var more := LayoutEntries(es, n + 2);
    var first := Line(n, "- " + EntryText(es[0].key, Str("")));
    NestedItemLayout(es, n);
    NestedItemParts(es);
    LaidOutItem(lines, idx, n, first, more, suffix);
    assert [] + es == es;
    EntriesRoundTrip(es, [], lines, idx + 1, n + 2, suffix);
    EntriesStart(es, lines, idx + 1, n + 2, suffix);
    NestedItemStep(lines, idx, n, es, idx + 1 + |more|);
  }

  lemma DictItemLayout(es: seq<Entry>, n: nat)
    requires es != [] && es[0].value.Leaf?
    ensures var content := "- " + EntryText(es[0].key, es[0].value.scalar);
            LayoutItem(Dict(es), n) == [Line(n, content)] + LayoutEntries(es[1..], n + 2) && IsItem(content)
  {
    hide LayoutEntries;
    hide EntryText;
  }

  lemma NestedItemLayout(es: seq<Entry>, n: nat)
    requires es != [] && !es[0].value.Leaf?
    ensures var content := "- " + EntryText(es[0].key, Str(""));
            LayoutItem(Dict(es), n) == [Line(n, content)] + LayoutEntries(es, n + 2) && IsItem(content)
  {
    hide LayoutEntries;
    hide EntryText;
  }

  lemma DictItemParts(es: seq<Entry>)
    requires es != [] && EntriesShape(es) && ItemPlain(Dict(es))
    ensures [es[0]] + es[1..] == es && DistinctKeys(es) && KeyShape(es[0].key)
    ensures EntriesShape(es[1..]) && EntriesShape([] + es[1..]) && PlainEntries(es[1..])
    ensures es[1..] != [] ==> KeyShape(es[1].key) && !IsItem(es[1].key)
  {
    hide KeyShape;
    hide Shaped;
    hide Plain;
    assert [] + es[1..] == es[1..];
  }

  lemma NestedItemParts(es: seq<Entry>)
    requires es != [] && EntriesShape(es) && ItemPlain(Dict(es)) && !es[0].value.Leaf?
    ensures DistinctKeys(es) && KeyShape(es[0].key) && !IsItem(es[0].key)
    ensures EntriesShape([] + es) && PlainEntries(es)
  {
    hide KeyShape;
    hide Shaped;
    hide Plain;
    assert [] + es == es;
  }

  lemma LaidOutItem(lines: seq<Line>, idx: nat, n: nat, first: Line, more: seq<Line>, suffix: seq<Line>)
    requires LaidOut(lines, idx, [first] + more, suffix) && (suffix == [] || suffix[0].indent <= n)
    requires first.indent == n && IsItem(first.content)
    ensures AtItem(lines, idx, n) && lines[idx] == first
    ensures LaidOut(lines, idx + 1, more, suffix) && Shallower(suffix, n + 2)
  {
    LaidOutHead(lines, idx, first, more, suffix);
  }

  lemma ShallowItem(lines: seq<Line>, idx: nat, n: nat, suffix: seq<Line>)
    requires LaidOut(lines, idx, [], suffix) && (suffix == [] || suffix[0].indent <= n)
    ensures idx < |lines| ==> lines[idx].indent <= n
  {
    ShallowNext(lines, idx, suffix, n + 1);
  }

  lemma EntriesStart(es: seq<Entry>, lines: seq<Line>, idx: nat, n: nat, suffix: seq<Line>)
    requires es != [] && KeyShape(es[0].key) && !IsItem(es[0].key)
    requires LaidOut(lines, idx, LayoutEntries(es, n), suffix)
    ensures AtEntry(lines, idx, n)
  {
    EntryFirstLine(es[0], n);
    assert lines[idx] == lines[idx..][0] == LayoutEntry(es[0], n)[0];
  }

  lemma FirstFieldRoundTrip(key: string, sc: Scalar)
    requires KeyShape(key)
    ensures var payload := EntryText(key, sc);
            Trimmed(payload) && ':' in payload && FirstField(payload) == [Entry(key, Leaf(sc))]
  {
    PairRoundTrip(key, sc);
    hide EntryText;
    hide Spelled;
    hide ParseScalar;
  }

  /** Updating with new keys appends the new entries. */
  lemma {:induction false} UpdateAppends(es: seq<Entry>, other: seq<Entry>)
    requires DistinctKeys(es + other)
    ensures Update(es, other) == es + other
    decreases |other|
  {
    if other != [] {
      assert es + other == es + [other[0]] + other[1..];
      FreshKey(es, other[0], other[1..]);
      UpdateAppends(es + [other[0]], other[1..]);
    } else {
      assert es + other == es;
    }
  }
}
