/**
  When the reader of yamlish.py refuses a text: what every line of a text that loads is like, and what the
  line is like that an error names.
 */
module YamlErrors {
  import opened PyText
  import opened Yaml
  import opened YamlShape

  /** A list item, or a key with its value. */
  predicate Readable(line: Line) {
    IsItem(line.content) || ':' in line.content
  }

  /** Lines of a block: readable, none shallower than the first, none more than a level deeper than the one before. */
  ghost predicate ReadFrom(lines: seq<Line>, lo: nat, hi: nat, indent: nat)
    requires hi <= |lines|
  {
    && (forall k :: lo <= k < hi ==> Readable(lines[k]) && lines[k].indent >= indent)
    && (forall k :: lo < k < hi ==> lines[k].indent <= lines[k - 1].indent + 2)
    && (lo < hi ==> lines[lo].indent == indent)
  }

  /** The line that an error names, counted from 1, is too deep below the one before, or has no key. */
  ghost predicate Blames(lines: seq<Line>, lo: nat, e: YamlError) {
    match e
    case UnexpectedIndentation(k) => lo + 1 < k <= |lines| && lines[k - 1].indent > lines[k - 2].indent + 2
    case ExpectedKeyValue(k) => lo < k <= |lines| && !Readable(lines[k - 1])
    case TrailingContent => false
  }

  lemma {:induction false} BlockReads(lines: seq<Line>, start: nat, indent: nat)
    requires start <= |lines|
    ensures var r := ParseBlock(lines, start, indent);
            && (r.Ok? ==> ReadFrom(lines, start, r.next, indent))
            && (r.Err? ==>
                  Blames(lines, start, r.error)
                  || (start < |lines| && lines[start].indent > indent && r.error == UnexpectedIndentation(start + 1)))
    decreases Rest(lines, start), 2
  {
    if start < |lines| && lines[start].indent == indent {
      if IsItem(lines[start].content) {
        ItemsRead(lines, start, indent, []);
      } else {
        EntriesRead(lines, start, indent, []);
      }
    }
  }

  lemma {:induction false} ItemsRead(lines: seq<Line>, idx: nat, indent: nat, items: seq<Value>)
    requires idx <= |lines|
    ensures var r := ParseItems(lines, idx, indent, items);
            && (r.Ok? ==> ReadFrom(lines, idx, r.next, indent))
            && (r.Err? ==> Blames(lines, idx, r.error))
    decreases Rest(lines, idx), 1
  {
    if AtItem(lines, idx, indent) {
      BlockReads(lines, idx + 1, indent + 2);
      OneItemRead(lines, idx, indent);
      hide ParseBlock, ParseItem, ReadFrom, Blames, Readable, IsItem;
      var e := ParseItem(lines, idx, indent);
      if e.Ok? {
        ItemsRead(lines, e.next, indent, items + [e.value]);
        var r := ParseItems(lines, e.next, indent, items + [e.value]);
        if r.Ok? {
          ReadOn(lines, idx, e.next, r.next, indent);
        } else {
          BlamesOn(lines, idx, e.next, r.error);
        }
      }
    }
  }

  lemma {:induction false} EntriesRead(lines: seq<Line>, idx: nat, indent: nat, entries: seq<Entry>)
    requires idx <= |lines|
    ensures var r := ParseEntries(lines, idx, indent, entries);
            && (r.Ok? ==> ReadFrom(lines, idx, r.next, indent))
            && (r.Err? ==> Blames(lines, idx, r.error))
    decreases Rest(lines, idx), 1
  {
    if AtEntry(lines, idx, indent) {
      BlockReads(lines, idx + 1, indent + 2);
      OneEntryRead(lines, idx, indent);
      hide ParseBlock, ParseEntry, ReadFrom, Blames, Readable, IsItem, Put;
      var e := ParseEntry(lines, idx, indent);
      if e.Ok? {
        var entries1 := Put(entries, e.value.key, e.value.value);
        EntriesRead(lines, e.next, indent, entries1);
        var r := ParseEntries(lines, e.next, indent, entries1);
        if r.Ok? {
          ReadOn(lines, idx, e.next, r.next, indent);
        } else {
          BlamesOn(lines, idx, e.next, r.error);
        }
      }
    } else {
      NothingRead(lines, idx, indent);
    }
  }

  lemma NothingRead(lines: seq<Line>, idx: nat, indent: nat)
    requires idx <= |lines|
    ensures ReadFrom(lines, idx, idx, indent)
  {
  }

  /** What is read of the block below line `idx`, if any. */
  ghost predicate ChildRead(lines: seq<Line>, idx: nat, indent: nat)
    requires idx < |lines|
  {
    var r := ParseBlock(lines, idx + 1, indent + 2);
    && (r.Ok? ==> ReadFrom(lines, idx + 1, r.next, indent + 2))
    && (r.Err? ==>
          Blames(lines, idx + 1, r.error)
          || (idx + 1 < |lines| && lines[idx + 1].indent > indent + 2 && r.error == UnexpectedIndentation(idx + 2)))
  }

  lemma OneItemRead(lines: seq<Line>, idx: nat, indent: nat)
    requires AtItem(lines, idx, indent) && ChildRead(lines, idx, indent)
    ensures var r := ParseItem(lines, idx, indent);
            && (r.Ok? ==> ReadFrom(lines, idx, r.next, indent))
            && (r.Err? ==> Blames(lines, idx, r.error))
  {
    hide ParseBlock, FirstField, ParseScalar, Update, Strip;
  }

  lemma OneEntryRead(lines: seq<Line>, idx: nat, indent: nat)
    requires AtEntry(lines, idx, indent) && ChildRead(lines, idx, indent)
    ensures var r := ParseEntry(lines, idx, indent);
            && (r.Ok? ==> ReadFrom(lines, idx, r.next, indent))
            && (r.Err? ==> Blames(lines, idx, r.error))
  {
    hide ParseBlock, SplitPair, ParseScalar;
  }

  lemma ReadOn(lines: seq<Line>, lo: nat, mid: nat, hi: nat, indent: nat)
    requires lo < mid <= hi <= |lines| && ReadFrom(lines, lo, mid, indent) && ReadFrom(lines, mid, hi, indent)
    ensures ReadFrom(lines, lo, hi, indent)
  {
    hide Readable;
  }

  lemma BlamesOn(lines: seq<Line>, lo: nat, mid: nat, e: YamlError)
    requires lo <= mid && Blames(lines, mid, e)
    ensures Blames(lines, lo, e)
  {
    hide Readable;
  }

  /**
    A text loads only if each of its lines is a list item or has a key, none stands further left than the
    first, and none more than two columns deeper than the line before. An error about a line names one that
    breaks this, and any other line left over is trailing content.
   */
  lemma LoadedLines(text: string)
    ensures var lines, r := NormalizedLines(text), LoadYamlSubset(text);
            && (r.Loaded? ==> lines == [] || ReadFrom(lines, 0, |lines|, lines[0].indent))
            && (r.Failed? ==> lines != [] && (r.error == TrailingContent || Blames(lines, 0, r.error)))
  {
    var lines := NormalizedLines(text);
    if lines != [] {
      BlockReads(lines, 0, lines[0].indent);
    }
    hide ReadFrom, Blames, ParseBlock;
  }

  /** A list below the first entry of an item is read, and then dropped: the item is that one entry. */
  lemma ListBelowItemDropped(lines: seq<Line>, idx: nat, indent: nat)
    requires AtItem(lines, idx, indent) && AtItem(lines, idx + 1, indent + 2) && ParseItem(lines, idx, indent).Ok?
    requires ':' in Strip(lines[idx].content[2..])
    ensures var (key, raw) := SplitPair(Strip(lines[idx].content[2..]));
            && ParseItem(lines, idx, indent).value == Dict([Entry(key, Leaf(ParseScalar(raw)))])
            && ParseItem(lines, idx, indent).next > idx + 1
  {
    var payload := Strip(lines[idx].content[2..]);
    var (key, raw) := SplitPair(payload);
    EmptyScalar();
    BlockExtent(lines, idx + 1, indent + 2);
    ListBlock(lines, idx + 1, indent + 2);
    hide ParseBlock, ParseScalar, SplitPair, IsItem, Strip, Update;
  }

  lemma EmptyScalar()
    ensures ParseScalar("") == Str("")
  {
  }

  lemma ListBlock(lines: seq<Line>, i: nat, indent: nat)
    requires AtItem(lines, i, indent)
    ensures var r := ParseBlock(lines, i, indent); r.Ok? ==> r.value.List?
  {
    hide ParseItems;
  }
}
