/**
  The YAML subset reader of `lobster_security/lobster_security/yamlish.py`: values, scalars,
  comment stripping, the three mutually recursive block parsers, and the loader.

  Each loop of the source is a method proved equal to a recursive function; the theorems about
  the reader (YamlShape, YamlRoundTrip) are stated about those functions.
 */
module Yaml {
  import opened PyText

  datatype Scalar = Str(s: string) | Int(n: int) | Bool(b: bool) | Null

  /** A parsed value. A dictionary keeps its entries in insertion order, as Python's does. */
  datatype Value = Leaf(scalar: Scalar) | List(items: seq<Value>) | Dict(entries: seq<Entry>)
  datatype Entry = Entry(key: string, value: Value)

  datatype Line = Line(indent: nat, content: string)

  datatype YamlError =
    | UnexpectedIndentation(line: nat)
    | ExpectedKeyValue(line: nat)
    | TrailingContent

  /** A parser's outcome: a value with the index of the first line it did not consume, or a raised error. */
  datatype Parse<+T> = Ok(value: T, next: nat) | Err(error: YamlError)

  datatype Loaded = Loaded(value: Value) | Failed(error: YamlError)

  // ----- dictionaries -----

  /** `mapping[key] = value`: an existing key keeps its position. */
  function Put(es: seq<Entry>, key: string, value: Value): (r: seq<Entry>)
    ensures |es| <= |r| <= |es| + 1
  {
    if es == [] then [Entry(key, value)]
    else if es[0].key == key then [Entry(key, value)] + es[1..]
    else [es[0]] + Put(es[1..], key, value)
  }

  /** `mapping.update(other)`. */
  function Update(es: seq<Entry>, other: seq<Entry>): (r: seq<Entry>)
    ensures |r| >= |es|
    decreases |other|
  {
    if other == [] then es else Update(Put(es, other[0].key, other[0].value), other[1..])
  }

  // ----- scalars -----

  predicate IsQuote(c: char) {
    c == '\'' || c == '"'
  }

  function ParseScalar(raw: string): Scalar {
    var v := Strip(raw);
    if v == "" then Str("")
    else if IsQuote(v[0]) && IsQuote(v[|v| - 1]) && |v| >= 2 then Str(v[1..|v| - 1])
    else
      var low := Lower(v);
      if low == "true" then Bool(true)
      else if low == "false" then Bool(false)
      else if low == "null" || low == "none" then Null
      else if AllDigits(low) then Int(DigitsValue(low))
      else if low[0] == '-' && |low| > 1 && AllDigits(low[1..]) then Int(-(DigitsValue(low[1..]) as int))
      else Str(v)
  }

  // ----- comments and lines -----

  /** Which quotes are open at a position of a raw line. */
  datatype Quoting = Quoting(single: bool, double: bool)

  const Unquoted := Quoting(false, false)

  function NextQuoting(q: Quoting, c: char): Quoting {
    if c == '\'' && !q.double then Quoting(!q.single, q.double)
    else if c == '"' && !q.single then Quoting(q.single, !q.double)
    else q
  }

  /** A '#' opens a comment outside quotes, at the line's start or after white space. */
  predicate OpensComment(raw: string, i: nat, q: Quoting)
    requires i < |raw|
  {
    raw[i] == '#' && q == Unquoted && (i == 0 || IsSpace(raw[i - 1]))
  }

  /** Where the comment of `raw` starts, scanning from `i` in state `q`; `|raw|` when there is none. */
  function CommentStart(raw: string, i: nat, q: Quoting): (k: nat)
    requires i <= |raw|
    ensures i <= k <= |raw|
    ensures k < |raw| ==> raw[k] == '#'
    decreases |raw| - i
  {
    if i == |raw| || OpensComment(raw, i, q) then i else CommentStart(raw, i + 1, NextQuoting(q, raw[i]))
  }

  function StripComment(raw: string): string {
    RStrip(raw[..CommentStart(raw, 0, Unquoted)])
  }

  method StripCommentScan(raw: string) returns (clean: string)
    ensures clean == StripComment(raw)
  {
    assert raw[..|raw|] == raw;
    if '#' !in raw {
      return RStrip(raw);
    }
    var inSingle, inDouble := false, false;
    for idx := 0 to |raw|
      invariant CommentStart(raw, 0, Unquoted) == CommentStart(raw, idx, Quoting(inSingle, inDouble))
    {
      var c := raw[idx];
      if c == '\'' && !inDouble {
        inSingle := !inSingle;
      } else if c == '"' && !inSingle {
        inDouble := !inDouble;
      } else if c == '#' && !inSingle && !inDouble {
        if idx == 0 || IsSpace(raw[idx - 1]) {
          return RStrip(raw[..idx]);
        }
      }
    }
    clean := RStrip(raw);
  }

  function LeadingBlanks(s: string): (n: nat)
    ensures n <= |s|
  {
    if s == "" || s[0] != ' ' then 0 else 1 + LeadingBlanks(s[1..])
  }

  /** The lines the parser sees of a list of raw lines: blank ones dropped, comments stripped. */
  function LinesOf(raws: seq<string>): seq<Line> {
    if raws == [] then []
    else
      var clean := StripComment(raws[0]);
      (if Strip(clean) == "" then [] else [Line(LeadingBlanks(clean), Strip(clean))]) + LinesOf(raws[1..])
  }

  function NormalizedLines(text: string): seq<Line> {
    LinesOf(SplitLines(text))
  }

  lemma LinesOfStep(raws: seq<string>, i: nat, prepared: seq<Line>)
    requires i < |raws|
    ensures var clean := StripComment(raws[i]);
            Strip(clean) == "" ==> LinesOf(raws[i..]) == LinesOf(raws[i + 1..])
    ensures var clean := StripComment(raws[i]);
            var more := prepared + [Line(LeadingBlanks(clean), Strip(clean))];
            Strip(clean) != "" ==> prepared + LinesOf(raws[i..]) == more + LinesOf(raws[i + 1..])
  {
    assert raws[i..][1..] == raws[i + 1..];
    assert [] + LinesOf(raws[i + 1..]) == LinesOf(raws[i + 1..]);
  }

  method NormalizeLines(text: string) returns (prepared: seq<Line>)
    ensures prepared == NormalizedLines(text)
  {
    prepared := PrepareLines(SplitLines(text));
  }

  lemma LinesOfNone(raws: seq<string>)
    ensures LinesOf(raws[|raws|..]) == []
  {
  }

  method PrepareLines(raws: seq<string>) returns (prepared: seq<Line>)
    ensures prepared == LinesOf(raws)
  {
    prepared := [];
    assert raws[0..] == raws;
    LinesOfNone(raws);
    hide *;
    for i := 0 to |raws|
      invariant LinesOf(raws) == prepared + LinesOf(raws[i..])
    {
      var clean := StripCommentScan(raws[i]);
      LinesOfStep(raws, i, prepared);
      if Strip(clean) == "" {
        continue;
      }
      prepared := prepared + [Line(LeadingBlanks(clean), Strip(clean))];
    }
  }

  // ----- the block parsers -----

  predicate IsItem(content: string) {
    |content| >= 2 && content[0] == '-' && content[1] == ' '
  }

  function FirstColon(s: string): (k: nat)
    requires ':' in s
    ensures k < |s| && s[k] == ':' && ':' !in s[..k]
  {
    if s[0] == ':' then 0
    else
      assert ':' in s[1..];
      var k := 1 + FirstColon(s[1..]);
      assert s[..k] == [s[0]] + s[1..][..k - 1];
      k
  }

  /** The stripped halves of `s.split(":", 1)`. */
  function SplitPair(s: string): (string, string)
    requires ':' in s
  {
    var k := FirstColon(s);
    (Strip(s[..k]), Strip(s[k + 1..]))
  }

  /** The dictionary that a list item's own line opens. */
  function FirstField(payload: string): (es: seq<Entry>)
    requires ':' in payload
    ensures |es| == 1
  {
    var (key, raw) := SplitPair(payload);
    [Entry(key, Leaf(if raw != "" then ParseScalar(raw) else Str("")))]
  }

  function Rest(lines: seq<Line>, i: nat): nat {
    if i < |lines| then |lines| - i else 0
  }

  predicate AtItem(lines: seq<Line>, i: nat, indent: nat) {
    i < |lines| && lines[i].indent == indent && IsItem(lines[i].content)
  }

  predicate AtEntry(lines: seq<Line>, i: nat, indent: nat) {
    i < |lines| && lines[i].indent == indent && !IsItem(lines[i].content)
  }

  function ParseBlock(lines: seq<Line>, start: nat, indent: nat): (r: Parse<Value>)
    ensures r.Ok? ==> start <= r.next && (start <= |lines| ==> r.next <= |lines|)
    decreases Rest(lines, start), 2
  {
    if start >= |lines| || lines[start].indent < indent then Ok(Dict([]), start)
    else if lines[start].indent > indent then Err(UnexpectedIndentation(start + 1))
    else if IsItem(lines[start].content) then
      match ParseItems(lines, start, indent, [])
      case Ok(items, next) => Ok(List(items), next)
      case Err(e) => Err(e)
    else
      match ParseEntries(lines, start, indent, [])
      case Ok(entries, next) => Ok(Dict(entries), next)
      case Err(e) => Err(e)
  }

  /** The loop of `_parse_list`, from line `idx` with `items` collected so far. */
  function ParseItems(lines: seq<Line>, idx: nat, indent: nat, items: seq<Value>): (r: Parse<seq<Value>>)
    ensures r.Ok? ==> idx <= r.next && (idx <= |lines| ==> r.next <= |lines|)
    decreases Rest(lines, idx), 1
  {
    if !AtItem(lines, idx, indent) then Ok(items, idx)
    else
      match ParseItem(lines, idx, indent)
      case Ok(item, next) => ParseItems(lines, next, indent, items + [item])
      case Err(e) => Err(e)
  }

  /** One round of that loop: the list item that starts on line `idx`. */
  function ParseItem(lines: seq<Line>, idx: nat, indent: nat): (r: Parse<Value>)
    requires AtItem(lines, idx, indent)
    ensures r.Ok? ==> idx < r.next <= |lines|
    decreases Rest(lines, idx), 0
  {
    var payload := Strip(lines[idx].content[2..]);
    if payload == "" then ParseBlock(lines, idx + 1, indent + 2)
    else if ':' in payload then
      var item := FirstField(payload);
      if idx + 1 < |lines| && lines[idx + 1].indent > indent then
        match ParseBlock(lines, idx + 1, indent + 2)
        case Ok(child, next) => Ok(Dict(if child.Dict? then Update(item, child.entries) else item), next)
        case Err(e) => Err(e)
      else Ok(Dict(item), idx + 1)
    else Ok(Leaf(ParseScalar(payload)), idx + 1)
  }

  /** The loop of `_parse_dict`, from line `idx` with `entries` collected so far. */
  function ParseEntries(lines: seq<Line>, idx: nat, indent: nat, entries: seq<Entry>): (r: Parse<seq<Entry>>)
    ensures r.Ok? ==> idx <= r.next && (idx <= |lines| ==> r.next <= |lines|)
    decreases Rest(lines, idx), 1
  {
    if !AtEntry(lines, idx, indent) then Ok(entries, idx)
    else
      match ParseEntry(lines, idx, indent)
      case Ok(entry, next) => ParseEntries(lines, next, indent, Put(entries, entry.key, entry.value))
      case Err(e) => Err(e)
  }

  /** One round of that loop: the entry that starts on line `idx`. */
  function ParseEntry(lines: seq<Line>, idx: nat, indent: nat): (r: Parse<Entry>)
    requires AtEntry(lines, idx, indent)
    ensures r.Ok? ==> idx < r.next <= |lines|
    decreases Rest(lines, idx), 0
  {
    if ':' !in lines[idx].content then Err(ExpectedKeyValue(idx + 1))
    else
      var (key, raw) := SplitPair(lines[idx].content);
      if raw == "" then
        match ParseBlock(lines, idx + 1, indent + 2)
        case Ok(child, next) => Ok(Entry(key, child), next)
        case Err(e) => Err(e)
      else Ok(Entry(key, Leaf(ParseScalar(raw))), idx + 1)
  }

  function LoadYamlSubset(text: string): Loaded {
    var lines := NormalizedLines(text);
    if lines == [] then Loaded(Dict([]))
    else
      match ParseBlock(lines, 0, lines[0].indent)
      case Ok(value, next) => if next != |lines| then Failed(TrailingContent) else Loaded(value)
      case Err(e) => Failed(e)
  }

  // ----- the source's loops, against the functions above -----

  method BlockParser(lines: seq<Line>, start: nat, indent: nat) returns (r: Parse<Value>)
    ensures r == ParseBlock(lines, start, indent)
    decreases Rest(lines, start), 2
  {
    if start >= |lines| {
      return Ok(Dict([]), start);
    }
    if lines[start].indent < indent {
      return Ok(Dict([]), start);
    }
    if lines[start].indent > indent {
      return Err(UnexpectedIndentation(start + 1));
    }
    if IsItem(lines[start].content) {
      r := ListParser(lines, start, indent);
    } else {
      r := DictParser(lines, start, indent);
    }
  }

  method ListParser(lines: seq<Line>, start: nat, indent: nat) returns (r: Parse<Value>)
    ensures match ParseItems(lines, start, indent, [])
            case Ok(items, next) => r == Ok(List(items), next)
            case Err(e) => r == Err(e)
    decreases Rest(lines, start), 1
  {
    hide ParseBlock;
    hide ParseScalar;
    hide FirstField;
    hide Strip;
    hide Update;
    var items, idx := [], start;
    while idx < |lines|
      invariant start <= idx
      invariant ParseItems(lines, start, indent, []) == ParseItems(lines, idx, indent, items)
      decreases Rest(lines, idx)
    {
      var content := lines[idx].content;
      if lines[idx].indent < indent {
        break;
      }
      if lines[idx].indent != indent || !IsItem(content) {
        break;
      }
      ghost var item := ParseItem(lines, idx, indent);
      var payload := Strip(content[2..]);
      idx := idx + 1;
      if payload == "" {
        var child := BlockParser(lines, idx, indent + 2);
        if child.Err? {
          return Err(child.error);
        }
        items, idx := items + [child.value], child.next;
      } else if ':' in payload {
        var fields := FirstField(payload);
        if idx < |lines| && lines[idx].indent > indent {
          var child := BlockParser(lines, idx, indent + 2);
          if child.Err? {
            return Err(child.error);
          }
          idx := child.next;
          if child.value.Dict? {
            fields := Update(fields, child.value.entries);
          }
        }
        assert item == Ok(Dict(fields), idx);
        items := items + [Dict(fields)];
      } else {
        items := items + [Leaf(ParseScalar(payload))];
      }
    }
    r := Ok(List(items), idx);
  }

  method DictParser(lines: seq<Line>, start: nat, indent: nat) returns (r: Parse<Value>)
    ensures match ParseEntries(lines, start, indent, [])
            case Ok(entries, next) => r == Ok(Dict(entries), next)
            case Err(e) => r == Err(e)
    decreases Rest(lines, start), 1
  {
    hide ParseBlock;
    hide ParseScalar;
    hide SplitPair;
    hide Put;
    var mapping, idx := [], start;
    while idx < |lines|
      invariant start <= idx
      invariant ParseEntries(lines, start, indent, []) == ParseEntries(lines, idx, indent, mapping)
      decreases Rest(lines, idx)
    {
      var content := lines[idx].content;
      if lines[idx].indent < indent {
        break;
      }
      if lines[idx].indent != indent || IsItem(content) {
        break;
      }
      if ':' !in content {
        return Err(ExpectedKeyValue(idx + 1));
      }
      ghost var entry := ParseEntry(lines, idx, indent);
      var (key, raw) := SplitPair(content);
      idx := idx + 1;
      if raw == "" {
        var child := BlockParser(lines, idx, indent + 2);
        if child.Err? {
          return Err(child.error);
        }
        assert entry == Ok(Entry(key, child.value), child.next);
        mapping, idx := Put(mapping, key, child.value), child.next;
      } else {
        mapping := Put(mapping, key, Leaf(ParseScalar(raw)));
      }
    }
    r := Ok(Dict(mapping), idx);
  }

  method Load(text: string) returns (r: Loaded)
    ensures r == LoadYamlSubset(text)
  {
    var lines := NormalizeLines(text);
    if lines == [] {
      return Loaded(Dict([]));
    }
    var parsed := BlockParser(lines, 0, lines[0].indent);
    if parsed.Err? {
      return Failed(parsed.error);
    }
    if parsed.next != |lines| {
      return Failed(TrailingContent);
    }
    r := Loaded(parsed.value);
  }
}
