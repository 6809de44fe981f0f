/**
  What holds of every run of the block parsers, on every sequence of lines: progress, indentation
  and lookahead, and the shape of whatever the loader returns.
 */
module YamlShape {
  import opened PyText
  import opened Yaml

  // ----- where a block starts and stops -----

  ghost predicate IndentedFrom(lines: seq<Line>, lo: nat, hi: nat, indent: nat)
    requires hi <= |lines|
  {
    forall k :: lo <= k < hi ==> lines[k].indent >= indent
  }

  /** A block never takes a line shallower than itself, and stops before a line that is not its own. */
  lemma {:induction false} BlockExtent(lines: seq<Line>, start: nat, indent: nat)
    requires start <= |lines|
    ensures var r := ParseBlock(lines, start, indent);
            r.Ok? ==> IndentedFrom(lines, start, r.next, indent)
    ensures var r := ParseBlock(lines, start, indent);
            r.Ok? && start < |lines| && lines[start].indent == indent ==> start < r.next
    decreases Rest(lines, start), 2
  {
    if start < |lines| && lines[start].indent == indent {
      if IsItem(lines[start].content) {
        ItemsExtent(lines, start, indent, []);
      } else {
        EntriesExtent(lines, start, indent, []);
      }
    }
  }

  lemma {:induction false} ItemsExtent(lines: seq<Line>, idx: nat, indent: nat, items: seq<Value>)
    requires idx <= |lines|
    ensures var r := ParseItems(lines, idx, indent, items);
            r.Ok? ==> IndentedFrom(lines, idx, r.next, indent) && !AtItem(lines, r.next, indent)
    decreases Rest(lines, idx), 1
  {
    if AtItem(lines, idx, indent) {
      BlockExtent(lines, idx + 1, indent + 2);
      match ParseItem(lines, idx, indent)
      case Ok(item, next) => ItemsExtent(lines, next, indent, items + [item]);
      case Err(_) =>
    }
  }

  lemma {:induction false} EntriesExtent(lines: seq<Line>, idx: nat, indent: nat, entries: seq<Entry>)
    requires idx <= |lines|
    ensures var r := ParseEntries(lines, idx, indent, entries);
            r.Ok? ==> IndentedFrom(lines, idx, r.next, indent) && !AtEntry(lines, r.next, indent)
    decreases Rest(lines, idx), 1
  {
    EntriesStep(lines, idx, indent, entries);
    hide ParseEntries;
    if AtEntry(lines, idx, indent) {
      BlockExtent(lines, idx + 1, indent + 2);
      OneEntryExtent(lines, idx, indent);
      hide *;
      var r, e := ParseEntries(lines, idx, indent, entries), ParseEntry(lines, idx, indent);
      if r.Ok? {
        EntriesExtent(lines, e.next, indent, Put(entries, e.value.key, e.value.value));
        IndentedOn(lines, idx, e.next, r.next, indent);
      }
    }
  }

  lemma EntriesStep(lines: seq<Line>, idx: nat, indent: nat, entries: seq<Entry>)
    ensures var r := ParseEntries(lines, idx, indent, entries);
            && (!AtEntry(lines, idx, indent) ==> r == Ok(entries, idx))
            && (AtEntry(lines, idx, indent) ==>
                  var e := ParseEntry(lines, idx, indent);
                  && (e.Ok? ==> r == ParseEntries(lines, e.next, indent, Put(entries, e.value.key, e.value.value)))
                  && (e.Err? ==> r.Err?))
  {
    hide AtEntry, ParseEntry, Put;
  }

  lemma OneEntryExtent(lines: seq<Line>, idx: nat, indent: nat)
    requires AtEntry(lines, idx, indent)
    requires var b := ParseBlock(lines, idx + 1, indent + 2); b.Ok? ==> IndentedFrom(lines, idx + 1, b.next, indent + 2)
    ensures var r := ParseEntry(lines, idx, indent); r.Ok? ==> IndentedFrom(lines, idx, r.next, indent)
  {
    hide ParseBlock, SplitPair, ParseScalar;
  }

  lemma IndentedOn(lines: seq<Line>, lo: nat, mid: nat, hi: nat, indent: nat)
    requires mid <= hi <= |lines| && IndentedFrom(lines, lo, mid, indent) && IndentedFrom(lines, mid, hi, indent)
    ensures IndentedFrom(lines, lo, hi, indent)
  {
  }

  // ----- lookahead -----

  /** `other` continues differently only after line `next`, which both have. */
  ghost predicate AgreeThrough(lines: seq<Line>, other: seq<Line>, next: nat) {
    next < |lines| && next < |other| && forall k :: 0 <= k <= next ==> lines[k] == other[k]
  }

  /** A block is decided by its own lines and the one line it stops at. */
  lemma {:induction false} BlockLookahead(lines: seq<Line>, other: seq<Line>, start: nat, indent: nat)
    requires var r := ParseBlock(lines, start, indent); r.Ok? && AgreeThrough(lines, other, r.next)
    ensures ParseBlock(other, start, indent) == ParseBlock(lines, start, indent)
    decreases Rest(lines, start), 2
  {
    if lines[start].indent == indent {
      if IsItem(lines[start].content) {
        ItemsLookahead(lines, other, start, indent, []);
      } else {
        EntriesLookahead(lines, other, start, indent, []);
      }
    }
  }

  lemma {:induction false} ItemsLookahead(lines: seq<Line>, other: seq<Line>, idx: nat, indent: nat, items: seq<Value>)
    requires var r := ParseItems(lines, idx, indent, items); r.Ok? && AgreeThrough(lines, other, r.next)
    ensures ParseItems(other, idx, indent, items) == ParseItems(lines, idx, indent, items)
    decreases Rest(lines, idx), 1
  {
    if AtItem(lines, idx, indent) {
      ItemLookahead(lines, other, idx, indent);
      var r := ParseItem(lines, idx, indent);
      ItemsLookahead(lines, other, r.next, indent, items + [r.value]);
    }
  }

  lemma {:induction false} ItemLookahead(lines: seq<Line>, other: seq<Line>, idx: nat, indent: nat)
    requires AtItem(lines, idx, indent)
    requires var r := ParseItem(lines, idx, indent); r.Ok? && AgreeThrough(lines, other, r.next)
    ensures ParseItem(other, idx, indent) == ParseItem(lines, idx, indent)
    decreases Rest(lines, idx), 0
  {
    var block := ParseBlock(lines, idx + 1, indent + 2);
    if block.Ok? && block.next == ParseItem(lines, idx, indent).next {
      BlockLookahead(lines, other, idx + 1, indent + 2);
    }
  }

  lemma {:induction false} EntriesLookahead(lines: seq<Line>, other: seq<Line>, idx: nat, indent: nat,
                                            entries: seq<Entry>)
    requires var r := ParseEntries(lines, idx, indent, entries); r.Ok? && AgreeThrough(lines, other, r.next)
    ensures ParseEntries(other, idx, indent, entries) == ParseEntries(lines, idx, indent, entries)
    decreases Rest(lines, idx), 1
  {
    if AtEntry(lines, idx, indent) {
      var r := ParseEntry(lines, idx, indent);
      var block := ParseBlock(lines, idx + 1, indent + 2);
      if block.Ok? && block.next == r.next {
        BlockLookahead(lines, other, idx + 1, indent + 2);
      }
      assert ParseEntry(other, idx, indent) == r;
      EntriesLookahead(lines, other, r.next, indent, Put(entries, r.value.key, r.value.value));
    }
  }

  // ----- the shape of a loaded value -----

  predicate HasKey(es: seq<Entry>, key: string) {
    exists i :: 0 <= i < |es| && es[i].key == key
  }

  predicate DistinctKeys(es: seq<Entry>) {
    forall i, j :: 0 <= i < j < |es| ==> es[i].key != es[j].key
  }

  /** `mapping[key] = value` overwrites the entry of that key, or appends a new one. */
  lemma {:induction false} PutMeaning(es: seq<Entry>, key: string, value: Value)
    ensures HasKey(es, key) ==>
              exists j :: 0 <= j < |es| && es[j].key == key && Put(es, key, value) == es[j := Entry(key, value)]
    ensures !HasKey(es, key) ==> Put(es, key, value) == es + [Entry(key, value)]
  {
    if es != [] && es[0].key != key {
      PutMeaning(es[1..], key, value);
      if HasKey(es, key) {
        var i :| 0 <= i < |es| && es[i].key == key;
        assert es[1..][i - 1].key == key;
        var j :| 0 <= j < |es[1..]| && es[1..][j].key == key
                 && Put(es[1..], key, value) == es[1..][j := Entry(key, value)];
        assert Put(es, key, value) == es[j + 1 := Entry(key, value)];
      } else {
        assert forall i :: 0 <= i < |es[1..]| ==> es[1..][i] == es[i + 1];
      }
    } else if es != [] {
      assert Put(es, key, value) == es[0 := Entry(key, value)];
    }
  }

  predicate KeyShape(key: string) {
    ':' !in key && (key == "" || Trimmed(key))
  }

  /** A list item is a colon-free scalar or a non-empty dictionary, never a list. */
  predicate ItemShape(v: Value) {
    match v
    case Leaf(sc) => sc.Str? ==> ':' !in sc.s
    case List(_) => false
    case Dict(es) => es != []
  }

  predicate Shaped(v: Value) {
    match v
    case Leaf(_) => true
    case List(items) => items != [] && forall i :: 0 <= i < |items| ==> ItemShape(items[i]) && Shaped(items[i])
    case Dict(es) => EntriesShape(es)
  }

  predicate EntriesShape(es: seq<Entry>) {
    DistinctKeys(es) && forall i :: 0 <= i < |es| ==> KeyShape(es[i].key) && Shaped(es[i].value)
  }

  lemma PutShape(es: seq<Entry>, key: string, value: Value)
    requires EntriesShape(es) && KeyShape(key) && Shaped(value)
    ensures EntriesShape(Put(es, key, value))
  {
    PutMeaning(es, key, value);
  }

  lemma {:induction false} UpdateShape(es: seq<Entry>, other: seq<Entry>)
    requires EntriesShape(es) && EntriesShape(other)
    ensures EntriesShape(Update(es, other))
    decreases |other|
  {
    if other != [] {
      PutShape(es, other[0].key, other[0].value);
      assert forall i :: 0 <= i < |other[1..]| ==> other[1..][i] == other[i + 1];
      UpdateShape(Put(es, other[0].key, other[0].value), other[1..]);
    }
  }

  lemma PairShape(s: string)
    requires ':' in s
    ensures KeyShape(SplitPair(s).0)
  {
    StripMeaning(s[..FirstColon(s)]);
  }

  lemma ScalarColon(payload: string)
    requires ':' !in payload
    ensures ItemShape(Leaf(ParseScalar(payload)))
  {
    StripMeaning(payload);
  }

  /** Contents as `_normalized_lines` delivers them: stripped and not blank. */
  ghost predicate Stripped(lines: seq<Line>) {
    forall k :: 0 <= k < |lines| ==> Trimmed(lines[k].content)
  }

  /** No stripped line reads as a list item with an empty payload: a lone "-" is not an item. */
  lemma PayloadNotEmpty(content: string)
    requires Trimmed(content) && IsItem(content)
    ensures Strip(content[2..]) != ""
  {
    StripMeaning(content[2..]);
    var tail := content[2..];
    assert !IsSpace(content[|content| - 1]);
    assert IsSpace(content[1]);
    assert tail[|tail| - 1] == content[|content| - 1];
  }

  lemma {:induction false} BlockShape(lines: seq<Line>, start: nat, indent: nat)
    requires Stripped(lines)
    ensures var r := ParseBlock(lines, start, indent); r.Ok? ==> !r.value.Leaf? && Shaped(r.value)
    decreases Rest(lines, start), 2
  {
    if start < |lines| && lines[start].indent == indent {
      if IsItem(lines[start].content) {
        ItemsShape(lines, start, indent, []);
      } else {
        EntryListShape(lines, start, indent, []);
      }
    }
  }

  lemma {:induction false} ItemsShape(lines: seq<Line>, idx: nat, indent: nat, items: seq<Value>)
    requires Stripped(lines)
    requires items != [] ==> Shaped(List(items))
    requires items == [] ==> AtItem(lines, idx, indent)
    ensures var r := ParseItems(lines, idx, indent, items); r.Ok? ==> Shaped(List(r.value))
    decreases Rest(lines, idx), 1
  {
    if AtItem(lines, idx, indent) {
      OneItemShape(lines, idx, indent);
      match ParseItem(lines, idx, indent)
      case Ok(item, next) =>
        ItemsShape(lines, next, indent, items + [item]);
      case Err(_) =>
    }
  }

  lemma {:induction false} OneItemShape(lines: seq<Line>, idx: nat, indent: nat)
    requires Stripped(lines) && AtItem(lines, idx, indent)
    ensures var r := ParseItem(lines, idx, indent); r.Ok? ==> ItemShape(r.value) && Shaped(r.value)
    decreases Rest(lines, idx), 0
  {
    PayloadNotEmpty(lines[idx].content);
    var payload := Strip(lines[idx].content[2..]);
    if ':' in payload {
      BlockShape(lines, idx + 1, indent + 2);
      FirstFieldShape(payload);
      var item := FirstField(payload);
      var block := ParseBlock(lines, idx + 1, indent + 2);
      if block.Ok? && block.value.Dict? {
        UpdateShape(item, block.value.entries);
      }
    } else {
      ScalarColon(payload);
    }
  }

  lemma FirstFieldShape(payload: string)
    requires ':' in payload
    ensures EntriesShape(FirstField(payload))
  {
    PairShape(payload);
  }

  lemma {:induction false} EntryListShape(lines: seq<Line>, idx: nat, indent: nat, entries: seq<Entry>)
    requires Stripped(lines) && EntriesShape(entries)
    ensures var r := ParseEntries(lines, idx, indent, entries); r.Ok? ==> EntriesShape(r.value)
    decreases Rest(lines, idx), 1
  {
    if AtEntry(lines, idx, indent) && ':' in lines[idx].content {
      PairShape(lines[idx].content);
      BlockShape(lines, idx + 1, indent + 2);
      match ParseEntry(lines, idx, indent)
      case Ok(entry, next) =>
        PutShape(entries, entry.key, entry.value);
        EntryListShape(lines, next, indent, Put(entries, entry.key, entry.value));
      case Err(_) =>
    }
  }

  lemma {:induction false} LinesStripped(raws: seq<string>)
    ensures Stripped(LinesOf(raws))
  {
    if raws != [] {
      StripMeaning(StripComment(raws[0]));
      LinesStripped(raws[1..]);
    }
  }

  /**
    Whatever text is loaded, the result is a dictionary or a list, every dictionary in it has distinct
    stripped keys, and no list in it holds a list, an empty dictionary or a string with a colon.
   */
  lemma LoadedShape(text: string)
    ensures var r := LoadYamlSubset(text); r.Loaded? ==> !r.value.Leaf? && Shaped(r.value)
  {
    LinesStripped(SplitLines(text));
    var lines := NormalizedLines(text);
    if lines != [] {
      BlockShape(lines, 0, lines[0].indent);
    }
  }
}
