/**
  The round trip at the level of whole texts: rendering a value's lines and loading the text gives
  the value back, through line splitting and comment stripping; and every value that some text loads
  to can be rendered so.
 */
module YamlText {
  import opened PyText
  import opened Yaml
  import opened YamlShape
  import opened YamlSpelling
  import opened YamlRoundTrip

  function Blanks(n: nat): (s: string)
    ensures |s| == n && forall i :: 0 <= i < n ==> s[i] == ' '
  {
    seq(n, _ => ' ')
  }

  function RawLine(line: Line): string {
    Blanks(line.indent) + line.content
  }

  function Render(lines: seq<Line>): string {
    if lines == [] then "" else RawLine(lines[0]) + "\n" + Render(lines[1..])
  }

  /** A line that survives as written: visible ends, no break inside, nothing that opens a comment. */
  predicate SafeLine(line: Line) {
    Trimmed(line.content) && GoodLine(line.content)
  }

  ghost predicate AllSafe(lines: seq<Line>) {
    forall k :: 0 <= k < |lines| ==> SafeLine(lines[k])
  }

  // ----- one raw line -----

  lemma RawLineBack(line: Line)
    requires SafeLine(line)
    ensures var raw := RawLine(line);
            OneLine(raw) && StripComment(raw) == raw && LeadingBlanks(raw) == line.indent && Strip(raw) == line.content
  {
    var pad, raw := Blanks(line.indent), RawLine(line);
    FreeConcat(pad, line.content, Unquoted, true);
    SpaceFree(pad, Unquoted, true);
    CommentFreeMeaning(raw);
    assert raw[..|raw|] == raw;
    assert raw[|raw| - 1] == line.content[|line.content| - 1];
    assert StripComment(raw) == raw;
    StripPadding(pad, line.content);
    BlanksBefore(line.indent, line.content);
  }

  lemma {:induction false} BlanksBefore(n: nat, s: string)
    requires Trimmed(s)
    ensures LeadingBlanks(Blanks(n) + s) == n
  {
    if n == 0 {
      assert Blanks(0) + s == s;
    } else {
      assert (Blanks(n) + s)[1..] == Blanks(n - 1) + s;
      BlanksBefore(n - 1, s);
    }
  }

  /** Safe lines come back from the rendered text, indentation and all. */
  lemma {:induction false} RenderedLines(lines: seq<Line>)
    requires AllSafe(lines)
    ensures NormalizedLines(Render(lines)) == lines
  {
    hide SafeLine;
    if lines != [] {
      var raw, more := RawLine(lines[0]), Render(lines[1..]);
      RenderedLines(lines[1..]);
      RawLineBack(lines[0]);
      NotBlank(lines[0]);
      SplitLinesMeaning(raw, '\n', more);
      OneRawLine(raw, lines[0], SplitLines(more));
      assert lines == [lines[0]] + lines[1..];
    }
  }

  lemma NotBlank(line: Line)
    requires SafeLine(line)
    ensures line.content != ""
  {
  }

  lemma OneRawLine(raw: string, line: Line, raws: seq<string>)
    requires StripComment(raw) == raw && LeadingBlanks(raw) == line.indent && Strip(raw) == line.content != ""
    ensures LinesOf([raw] + raws) == [line] + LinesOf(raws)
  {
    assert ([raw] + raws)[1..] == raws;
  }

  /** What is laid out safely is loaded back. */
  lemma LoadRoundTrip(v: Value, base: nat)
    requires !v.Leaf? && Shaped(v) && Plain(v) && AllSafe(Layout(v, base))
    ensures LoadYamlSubset(Render(Layout(v, base))) == Loaded(v)
  {
    hide SafeLine;
    hide ParseBlock;
    var lines := Layout(v, base);
    RenderedLines(lines);
    assert lines[0..] == lines + [];
    BlockRoundTrip(v, lines, 0, base, []);
    match v
    case List(items) => ItemFirstLine(items[0], base);
    case Dict(es) =>
      if es != [] {
        EntryFirstLine(es[0], base);
      }
  }

  // ----- which values can be written -----

  /** Every line that the layout of `v` needs is good, and no key stands where it would read as an item. */
  predicate Writable(v: Value) {
    match v
    case Leaf(_) => true
    case List(items) => forall i :: 0 <= i < |items| ==> ItemWritable(items[i])
    case Dict(es) => EntriesWritable(es)
  }

  predicate EntriesWritable(es: seq<Entry>) {
    forall i :: 0 <= i < |es| ==> !IsItem(es[i].key) && TextWritable(es[i]) && Writable(es[i].value)
  }

  /** The line of the entry itself. */
  predicate TextWritable(e: Entry) {
    GoodLine(if e.value.Leaf? then EntryText(e.key, e.value.scalar) else e.key + ":")
  }

  predicate ItemWritable(v: Value) {
    match v
    case Leaf(sc) => GoodLine(ItemText(sc))
    case List(_) => true
    case Dict(es) =>
      es != [] ==>
        (es[0].value.Leaf? || !IsItem(es[0].key))
        && forall i :: 0 <= i < |es| ==>
             TextWritable(es[i]) && Writable(es[i].value) && (i > 0 ==> !IsItem(es[i].key))
  }

  lemma {:induction false} WritableIsPlain(v: Value)
    requires Writable(v)
    ensures Plain(v)
  {
    hide TextWritable;
    match v
    case Leaf(_) =>
    case List(items) =>
      forall i | 0 <= i < |items|
        ensures ItemPlain(items[i])
      {
        assert ItemWritable(items[i]);
        if items[i].Dict? {
          var es := items[i].entries;
          forall k | 0 <= k < |es|
            ensures Plain(es[k].value)
          {
            WritableIsPlain(es[k].value);
          }
        }
      }
    case Dict(es) =>
      forall i | 0 <= i < |es|
        ensures Plain(es[i].value)
      {
        WritableIsPlain(es[i].value);
      }
  }

  // ----- writable values are laid out safely -----

  lemma {:induction false} BlockSafe(v: Value, n: nat)
    requires Shaped(v) && Writable(v)
    ensures AllSafe(Layout(v, n))
    decreases v, 1
  {
    hide SafeLine;
    match v
    case Leaf(_) =>
    case List(items) => ItemsSafe(items, n);
    case Dict(es) => EntriesSafe(es, n);
  }

  lemma {:induction false} EntriesSafe(es: seq<Entry>, n: nat)
    requires EntriesShape(es) && EntriesWritable(es)
    ensures AllSafe(LayoutEntries(es, n))
    decreases es, 0
  {
    hide SafeLine;
    hide TextWritable;
    if es != [] {
      EntrySafe(es[0], n);
      assert forall i :: 0 <= i < |es[1..]| ==> es[1..][i] == es[i + 1];
      EntriesSafe(es[1..], n);
    }
  }

  lemma {:induction false} EntrySafe(e: Entry, n: nat)
    requires KeyShape(e.key) && Shaped(e.value) && TextWritable(e) && Writable(e.value)
    ensures AllSafe(LayoutEntry(e, n))
    decreases e, 0
  {
    hide EntryText, GoodLine, Shaped, Writable, KeyShape, Layout;
    match e.value
    case Leaf(sc) => PairRoundTrip(e.key, sc);
    case _ =>
      HeaderRoundTrip(e.key);
      BlockSafe(e.value, n + 2);
  }

  lemma {:induction false} ItemsSafe(items: seq<Value>, n: nat)
    requires forall i :: 0 <= i < |items| ==> ItemShape(items[i]) && Shaped(items[i]) && ItemWritable(items[i])
    ensures AllSafe(LayoutItems(items, n))
    decreases items, 0
  {
    hide SafeLine;
    hide ItemWritable;
    if items != [] {
      ItemSafe(items[0], n);
      ItemsSafe(items[1..], n);
    }
  }

  lemma {:induction false} ItemSafe(v: Value, n: nat)
    requires ItemShape(v) && Shaped(v) && ItemWritable(v)
    ensures AllSafe(LayoutItem(v, n))
    decreases v, 0
  {
    hide SafeLine;
    match v
    case Leaf(sc) => ScalarItemSafe(sc, n);
    case Dict(es) =>
      DictItemParts(es);
      hide Shaped, EntriesShape, EntriesWritable, TextWritable, ItemWritable, LayoutEntries;
      hide GoodLine, EntryText, KeyShape;
      if es[0].value.Leaf? {
        DashLineSafe(es[0].key, es[0].value.scalar, n);
        EntriesSafe(es[1..], n + 2);
      } else {
        StandInGood(es[0].key);
        DashLineSafe(es[0].key, Str(""), n);
        EntriesSafe(es, n + 2);
      }
  }

  lemma DictItemParts(es: seq<Entry>)
    requires es != [] && Shaped(Dict(es)) && ItemWritable(Dict(es))
    ensures var e := es[0];
            && KeyShape(e.key) && GoodLine(if e.value.Leaf? then EntryText(e.key, e.value.scalar) else e.key + ":")
            && EntriesShape(es[1..]) && EntriesWritable(es[1..])
            && (!e.value.Leaf? ==> EntriesShape(es) && EntriesWritable(es))
  {
    hide GoodLine, EntryText;
    assert TextWritable(es[0]);
    assert forall i :: 0 <= i < |es| - 1 ==> es[1..][i] == es[i + 1];
  }

  lemma ScalarItemSafe(sc: Scalar, n: nat)
    requires GoodLine(ItemText(sc))
    ensures SafeLine(Line(n, ItemText(sc)))
  {
    var shown := Spelled("-", sc);
    ItemTextIs(sc);
    SpelledRoundTrip("-", sc);
    PayloadRoundTrip(shown);
    hide GoodLine;
    hide Spelled;
    assert Attach("-", shown) == "- " + shown;
  }

  lemma DashLineSafe(key: string, sc: Scalar, n: nat)
    requires KeyShape(key) && GoodLine(EntryText(key, sc))
    ensures SafeLine(Line(n, "- " + EntryText(key, sc)))
  {
    hide *;
    var text := EntryText(key, sc);
    PairRoundTrip(key, sc);
    PayloadRoundTrip(text);
    AfterDash(text);
    DashSafe(text, n);
  }

  lemma DashSafe(text: string, n: nat)
    requires GoodLine(text) && (CommentFree(text) ==> CommentFree("- " + text)) && Trimmed("- " + text)
    ensures SafeLine(Line(n, "- " + text))
  {
    hide CommentFree;
    hide Trimmed;
    assert OneLine("- " + text);
  }

  /** After a good key the empty string can be written, in quotes. */
  lemma StandInGood(key: string)
    requires GoodLine(key + ":")
    ensures GoodLine(EntryText(key, Str("")))
  {
    var empty := Quoted('"', "", '"');
    QuotedRoundTrip('"', "", '"');
    NoHashFree(empty, QuotingAfter(key + ":", Unquoted), false);
    QuotesOneLine();
    SpelledAgain(key + ":", empty);
    EntryTextIs(key, Str(""));
  }

  // ----- what was loaded can be written -----

  /** Every line that the parsers see is safe, whatever the text. */
  lemma {:induction false} LinesSafe(raws: seq<string>)
    requires forall i :: 0 <= i < |raws| ==> OneLine(raws[i])
    ensures AllSafe(LinesOf(raws))
  {
    if raws != [] {
      ContentSafe(raws[0]);
      LinesSafe(raws[1..]);
    }
  }

  lemma ContentSafe(raw: string)
    requires OneLine(raw)
    ensures var content := Strip(StripComment(raw)); content != "" ==> Trimmed(content) && GoodLine(content)
  {
    var before := raw[..CommentStart(raw, 0, Unquoted)];
    BeforeComment(raw, 0, Unquoted);
    assert raw[0..CommentStart(raw, 0, Unquoted)] == before;
    var clean := StripComment(raw);
    RStripMeaning(before);
    assert before == clean + before[|clean|..];
    FreeConcat(clean, before[|clean|..], Unquoted, true);
    hide StripComment;
    hide CommentStart;
    StrippedGood(clean);
  }

  lemma StrippedGood(clean: string)
    requires OneLine(clean) && Free(clean, Unquoted, true)
    ensures var content := Strip(clean); content != "" ==> Trimmed(content) && GoodLine(content)
  {
    hide *;
    var content := Strip(clean);
    var space, tail := StrippedParts(clean);
    FreeConcat(space, content + tail, Unquoted, true);
    SpaceFree(space, Unquoted, true);
    AfterSpace(space);
    FreeConcat(content, tail, Unquoted, true);
    MiddleOneLine(space, content, tail);
    GoodFrom(content);
  }

  lemma StrippedParts(clean: string) returns (space: string, tail: string)
    ensures clean == space + (Strip(clean) + tail) && AllSpace(space)
    ensures Strip(clean) != "" ==> Trimmed(Strip(clean))
  {
    StripMeaning(clean);
    LStripMeaning(clean);
    var t := LStrip(clean);
    RStripMeaning(t);
    space, tail := clean[..|clean| - |t|], t[|Strip(clean)|..];
  }

  lemma MiddleOneLine(space: string, content: string, tail: string)
    requires OneLine(space + (content + tail))
    ensures OneLine(content)
  {
    assert forall i :: 0 <= i < |content| ==> content[i] == (space + (content + tail))[|space| + i];
  }

  lemma {:induction false} SplitOneLine(s: string)
    ensures forall i :: 0 <= i < |SplitLines(s)| ==> OneLine(SplitLines(s)[i])
    decreases |s|
  {
    if s != "" {
      var k := FirstBreak(s);
      if k < |s| {
        if s[k] == '\r' && k + 1 < |s| && s[k + 1] == '\n' {
          SplitOneLine(s[k + 2..]);
        } else {
          SplitOneLine(s[k + 1..]);
        }
      }
    }
  }

  lemma {:induction false} BlockWritable(lines: seq<Line>, start: nat, indent: nat)
    requires AllSafe(lines)
    ensures var r := ParseBlock(lines, start, indent); r.Ok? ==> Writable(r.value)
    decreases Rest(lines, start), 2
  {
    hide SafeLine;
    hide ItemWritable;
    hide TextWritable;
    if start < |lines| && lines[start].indent == indent {
      if IsItem(lines[start].content) {
        ItemsWritable(lines, start, indent, []);
      } else {
        EntryListWritable(lines, start, indent, []);
      }
    }
  }

  lemma {:induction false} ItemsWritable(lines: seq<Line>, idx: nat, indent: nat, items: seq<Value>)
    requires AllSafe(lines) && forall i :: 0 <= i < |items| ==> ItemWritable(items[i])
    ensures var r := ParseItems(lines, idx, indent, items);
            r.Ok? ==> forall i :: 0 <= i < |r.value| ==> ItemWritable(r.value[i])
    decreases Rest(lines, idx), 1
  {
    hide SafeLine;
    hide ItemWritable;
    hide ParseItem;
    if AtItem(lines, idx, indent) {
      OneItemWritable(lines, idx, indent);
      match ParseItem(lines, idx, indent)
      case Ok(item, next) => ItemsWritable(lines, next, indent, items + [item]);
      case Err(_) =>
    }
  }

  lemma {:induction false} OneItemWritable(lines: seq<Line>, idx: nat, indent: nat)
    requires AllSafe(lines) && AtItem(lines, idx, indent)
    ensures var r := ParseItem(lines, idx, indent); r.Ok? ==> ItemWritable(r.value)
    decreases Rest(lines, idx), 0
  {
    assert SafeLine(lines[idx]);
    PayloadNotEmpty(lines[idx].content);
    PayloadSpelledAgain(lines[idx].content);
    var payload := Strip(lines[idx].content[2..]);
    BlockWritable(lines, idx + 1, indent + 2);
    hide *;
    if ':' in payload {
      FirstFieldWritable(payload);
      DictItemValue(lines, idx, indent, payload);
    } else {
      ScalarItemValue(lines, idx, indent, payload);
    }
  }

  lemma ScalarItemValue(lines: seq<Line>, idx: nat, indent: nat, payload: string)
    requires AtItem(lines, idx, indent) && payload == Strip(lines[idx].content[2..]) != "" && ':' !in payload
    requires GoodLine(ItemText(ParseScalar(payload)))
    ensures var r := ParseItem(lines, idx, indent); r.Ok? ==> ItemWritable(r.value)
  {
    hide ParseScalar;
    hide ItemText;
    hide GoodLine;
    hide ParseBlock;
  }

  lemma DictItemValue(lines: seq<Line>, idx: nat, indent: nat, payload: string)
    requires AtItem(lines, idx, indent) && payload == Strip(lines[idx].content[2..]) && ':' in payload
    requires TextWritable(FirstField(payload)[0]) && FirstField(payload)[0].value.Leaf?
    requires var r := ParseBlock(lines, idx + 1, indent + 2); r.Ok? ==> Writable(r.value)
    ensures var r := ParseItem(lines, idx, indent); r.Ok? ==> ItemWritable(r.value)
  {
    hide FirstField;
    hide TextWritable;
    hide ParseBlock;
    hide Update;
    hide Strip;
    var item, r := FirstField(payload), ParseBlock(lines, idx + 1, indent + 2);
    if r.Ok? && r.value.Dict? {
      UpdateWritable(item, r.value.entries);
    }
  }

  lemma FirstFieldWritable(payload: string)
    requires Trimmed(payload) && GoodLine(payload) && ':' in payload
    ensures TextWritable(FirstField(payload)[0]) && FirstField(payload)[0].value.Leaf?
  {
    PairSpelledAgain(payload);
    StandInGood(SplitPair(payload).0);
    hide GoodLine;
    hide EntryText;
    hide SplitPair;
  }

  /** Updating an item with entries of its own block keeps it writable. */
  lemma {:induction false} UpdateWritable(es: seq<Entry>, other: seq<Entry>)
    requires es != [] && ItemWritable(Dict(es)) && EntriesWritable(other)
    ensures Update(es, other) != [] && ItemWritable(Dict(Update(es, other)))
    decreases |other|
  {
    hide TextWritable;
    if other != [] {
      var e := other[0];
      PutWritable(es, e);
      assert forall i :: 0 <= i < |other[1..]| ==> other[1..][i] == other[i + 1];
      UpdateWritable(Put(es, e.key, e.value), other[1..]);
    }
  }

  lemma PutWritable(es: seq<Entry>, e: Entry)
    requires es != [] && ItemWritable(Dict(es))
    requires !IsItem(e.key) && TextWritable(e) && Writable(e.value)
    ensures var r := Put(es, e.key, e.value); r != [] && ItemWritable(Dict(r))
  {
    hide TextWritable;
    hide IsItem;
    hide Writable;
    hide Put;
    PutMeaning(es, e.key, e.value);
  }

  lemma {:induction false} EntryListWritable(lines: seq<Line>, idx: nat, indent: nat, entries: seq<Entry>)
    requires AllSafe(lines) && EntriesWritable(entries)
    ensures var r := ParseEntries(lines, idx, indent, entries); r.Ok? ==> EntriesWritable(r.value)
    decreases Rest(lines, idx), 1
  {
    hide SafeLine;
    hide EntriesWritable;
    hide ParseEntry;
    hide Put;
    if AtEntry(lines, idx, indent) {
      OneEntryWritable(lines, idx, indent);
      match ParseEntry(lines, idx, indent)
      case Ok(entry, next) =>
        PutEntryWritable(entries, entry);
        EntryListWritable(lines, next, indent, Put(entries, entry.key, entry.value));
      case Err(_) =>
    }
  }

  lemma PutEntryWritable(es: seq<Entry>, e: Entry)
    requires EntriesWritable(es) && !IsItem(e.key) && TextWritable(e) && Writable(e.value)
    ensures EntriesWritable(Put(es, e.key, e.value))
  {
    hide TextWritable;
    hide IsItem;
    hide Writable;
    hide Put;
    PutMeaning(es, e.key, e.value);
  }

  lemma {:induction false} OneEntryWritable(lines: seq<Line>, idx: nat, indent: nat)
    requires AllSafe(lines) && AtEntry(lines, idx, indent)
    ensures var r := ParseEntry(lines, idx, indent);
            r.Ok? ==> !IsItem(r.value.key) && TextWritable(r.value) && Writable(r.value.value)
    decreases Rest(lines, idx), 0
  {
    assert SafeLine(lines[idx]);
    var content := lines[idx].content;
    if ':' in content {
      PairSpelledAgain(content);
      KeyNoItem(content);
      BlockWritable(lines, idx + 1, indent + 2);
      if SplitPair(content).1 == "" {
        BlockIsNoLeaf(lines, idx + 1, indent + 2);
      }
      hide GoodLine;
      hide EntryText;
      hide SplitPair;
      hide ParseBlock;
      hide ParseScalar;
    }
  }

  lemma BlockIsNoLeaf(lines: seq<Line>, start: nat, indent: nat)
    ensures var r := ParseBlock(lines, start, indent); r.Ok? ==> !r.value.Leaf?
  {
  }

  /** A key that opens like an item makes its line open so. */
  lemma KeyNoItem(content: string)
    requires Trimmed(content) && ':' in content
    ensures IsItem(SplitPair(content).0) ==> IsItem(content)
  {
    var gap, space := PairParts(content);
    hide SplitPair;
    var (key, raw) := SplitPair(content);
    assert content == key + (gap + ":" + space + raw);
    assert |key| >= 2 ==> content[0] == key[0] && content[1] == key[1];
  }

  /**
    Whatever a text loads to is shaped and writable: the parsers yield nothing that the notation cannot
    spell again.
   */
  lemma LoadedWritable(text: string)
    ensures var r := LoadYamlSubset(text); r.Loaded? ==> !r.value.Leaf? && Shaped(r.value) && Writable(r.value)
  {
    hide *;
    LoadedShape(text);
    SplitOneLine(text);
    LinesSafe(SplitLines(text));
    BlockLoaded(text);
    var lines := LinesOf(SplitLines(text));
    if lines != [] {
      BlockWritable(lines, 0, lines[0].indent);
    } else {
      EmptyWritable();
    }
  }

  lemma EmptyWritable()
    ensures Writable(Dict([]))
  {
  }

  lemma BlockLoaded(text: string)
    ensures var lines, r := LinesOf(SplitLines(text)), LoadYamlSubset(text);
            if lines == [] then r == Loaded(Dict([]))
            else r.Loaded? ==> var b := ParseBlock(lines, 0, lines[0].indent); b.Ok? && b.value == r.value
  {
    hide ParseBlock;
    hide LinesOf;
    hide SplitLines;
  }

  // ----- the laws of the loader -----

  /** Every shaped and writable value is loaded back from its rendered text, from any base indentation. */
  lemma RenderLoad(v: Value, base: nat)
    requires !v.Leaf? && Shaped(v) && Writable(v)
    ensures LoadYamlSubset(Render(Layout(v, base))) == Loaded(v)
  {
    WritableIsPlain(v);
    BlockSafe(v, base);
    LoadRoundTrip(v, base);
  }

  /** What any text loads to can be written and loaded again without loss. */
  lemma LoadRenderLoad(text: string, base: nat)
    requires LoadYamlSubset(text).Loaded?
    ensures var r := LoadYamlSubset(text); LoadYamlSubset(Render(Layout(r.value, base))) == r
  {
    LoadedWritable(text);
    RenderLoad(LoadYamlSubset(text).value, base);
  }

  /**
    The exact reach of the notation, among all values: some text loads to a value if and only if it is a
    dictionary or list that is shaped and writable. A list of lists, an empty list, or a list holding a
    string with a colon is out of reach of every text.
   */
  lemma ReachableIff(v: Value)
    ensures (exists text :: LoadYamlSubset(text) == Loaded(v)) <==> !v.Leaf? && Shaped(v) && Writable(v)
  {
    forall text | LoadYamlSubset(text) == Loaded(v)
      ensures !v.Leaf? && Shaped(v) && Writable(v)
    {
      LoadedWritable(text);
    }
    if !v.Leaf? && Shaped(v) && Writable(v) {
      RenderLoad(v, 0);
    }
  }
}
