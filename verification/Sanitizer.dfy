/**
  The event-driven `SanitizingHTMLParser` of `lobster_security/lobster_security/search_proxy.py`: a skip
  counter over script, iframe, style and form, and a capture mode switched by pre and code.
 */
module Sanitizer {
  import opened PyText

  datatype Event = StartTag(tag: string) | EndTag(tag: string) | Data(data: string)

  predicate IsSkip(tag: string) {
    Lower(tag) in ["script", "iframe", "style", "form"]
  }

  predicate IsCode(tag: string) {
    Lower(tag) in ["pre", "code"]
  }

  /** The skipped elements and those with code, whatever the case of the tag. */
  lemma TagMeaning(tag: string)
    ensures IsSkip(tag) <==>
              AnyCase(tag, "script") || AnyCase(tag, "iframe") || AnyCase(tag, "style") || AnyCase(tag, "form")
    ensures IsCode(tag) <==> AnyCase(tag, "pre") || AnyCase(tag, "code")
  {
    LowerIs(tag, "script");
    LowerIs(tag, "iframe");
    LowerIs(tag, "style");
    LowerIs(tag, "form");
    LowerIs(tag, "pre");
    LowerIs(tag, "code");
    hide Lower, AnyCase;
  }

  // ----- " ".join(data.split()) -----

  function WordEnd(s: string): (k: nat)
    ensures k <= |s|
    ensures s != "" && !IsSpace(s[0]) ==> k > 0
  {
    if s == "" || IsSpace(s[0]) then 0 else 1 + WordEnd(s[1..])
  }

  function Words(s: string): seq<string>
    decreases |s|
  {
    var t := LStrip(s);
    if t == "" || IsSpace(t[0]) then [] else [t[..WordEnd(t)]] + Words(t[WordEnd(t)..])
  }

  function JoinWords(words: seq<string>): string {
    if words == [] then "" else if |words| == 1 then words[0] else words[0] + " " + JoinWords(words[1..])
  }

  function Squeeze(data: string): string {
    JoinWords(Words(data))
  }

  /** A text with one blank for each run of white space, none at its end. */
  function OneBlank(s: string): string {
    if s == "" then ""
    else
      var r := OneBlank(s[1..]);
      if !IsSpace(s[0]) then [s[0]] + r else if r == "" || r[0] == ' ' then r else " " + r
  }

  function NoFirstBlank(s: string): string {
    if s != "" && s[0] == ' ' then s[1..] else s
  }

  lemma {:induction false} OneBlankStart(s: string)
    ensures OneBlank(s) != "" && OneBlank(s)[0] == ' ' ==> |OneBlank(s)| > 1 && OneBlank(s)[1] != ' '
    ensures s != "" && IsSpace(s[0]) ==> OneBlank(s) == "" || OneBlank(s)[0] == ' '
    ensures NoFirstBlank(OneBlank(s)) == "" <==> OneBlank(s) == ""
    ensures OneBlank(s) == "" <==> forall i :: 0 <= i < |s| ==> IsSpace(s[i])
  {
    if s != "" {
      OneBlankStart(s[1..]);
      assert forall i :: 1 <= i < |s| ==> s[i] == s[1..][i - 1];
    }
  }

  lemma {:induction false} OneBlankPadding(s: string)
    ensures NoFirstBlank(OneBlank(LStrip(s))) == NoFirstBlank(OneBlank(s))
  {
    if s != "" && IsSpace(s[0]) {
      OneBlankPadding(s[1..]);
      OneBlankStart(s[1..]);
    }
  }

  lemma {:induction false} OneBlankWord(t: string)
    ensures var k := WordEnd(t); OneBlank(t) == t[..k] + OneBlank(t[k..]) && (k < |t| ==> IsSpace(t[k]))
  {
    if t != "" && !IsSpace(t[0]) {
      OneBlankWord(t[1..]);
      var k := WordEnd(t);
      assert t[..k] == [t[0]] + t[1..][..k - 1] && t[k..] == t[1..][k - 1..];
    } else {
      assert t[..0] == "" && t[0..] == t;
    }
  }

  /** Squeezing keeps the visible characters in order, with one blank between two words and none at the ends. */
  lemma {:induction false} SqueezeMeaning(data: string)
    ensures Squeeze(data) == NoFirstBlank(OneBlank(data))
    decreases |data|
  {
    hide *;
    var t := LStrip(data);
    OneBlankPadding(data);
    FirstWord(data);
    if t == "" {
      OneBlankStart(t);
      NoWords(data);
    } else {
      var rest := t[WordEnd(t)..];
      OneBlankWord(t);
      OneBlankStart(rest);
      SqueezeMeaning(rest);
      NoWords(rest);
      JoinWordsCons(t[..WordEnd(t)], Words(rest));
      SqueezeIs(data);
      SqueezeIs(rest);
      BlankFirst(t, rest);
    }
  }

  lemma SqueezeIs(data: string)
    ensures Squeeze(data) == JoinWords(Words(data))
  {
  }

  /** The first word is what stands before the next white space. */
  lemma FirstWord(data: string)
    ensures var t := LStrip(data);
            && (t != "" ==> !IsSpace(t[0]) && 0 < WordEnd(t) && |t[WordEnd(t)..]| < |data|)
            && Words(data) == if t == "" then [] else [t[..WordEnd(t)]] + Words(t[WordEnd(t)..])
  {
    LStripMeaning(data);
  }

  lemma JoinWordsCons(w: string, ws: seq<string>)
    ensures JoinWords([w] + ws) == if ws == [] then w else w + " " + JoinWords(ws)
  {
    assert ([w] + ws)[1..] == ws;
  }

  lemma NoWords(s: string)
    ensures Squeeze(s) == "" <==> Words(s) == []
    ensures LStrip(s) == "" ==> Words(s) == []
  {
    FirstWord(s);
    var t := LStrip(s);
    if t != "" {
      JoinWordsCons(t[..WordEnd(t)], Words(t[WordEnd(t)..]));
    }
  }

  /** How a text whose first word is followed by `rest` is spaced. */
  lemma BlankFirst(t: string, rest: string)
    requires t != "" && !IsSpace(t[0]) && rest == t[WordEnd(t)..]
    requires OneBlank(t) == t[..WordEnd(t)] + OneBlank(rest) && WordEnd(t) > 0
    requires WordEnd(t) < |t| ==> IsSpace(t[WordEnd(t)])
    requires rest != "" && IsSpace(rest[0]) ==> OneBlank(rest) == "" || OneBlank(rest)[0] == ' '
    ensures NoFirstBlank(OneBlank(t)) == OneBlank(t)
    ensures OneBlank(rest) == "" || OneBlank(rest) == " " + NoFirstBlank(OneBlank(rest))
  {
    hide WordEnd;
    assert OneBlank(t)[0] == t[0];
    var r := OneBlank(rest);
    assert r != "" ==> r == [r[0]] + r[1..];
  }

  lemma SqueezeBlank(data: string)
    ensures Squeeze(data) == "" <==> forall i :: 0 <= i < |data| ==> IsSpace(data[i])
  {
    LStripMeaning(data);
    var t := LStrip(data);
    if t != "" {
      assert !IsSpace(t[0]) && t[0] == data[|data| - |t|];
      assert Words(data)[0] == t[..WordEnd(t)] && Words(data)[0] != "";
      assert |Squeeze(data)| >= |Words(data)[0]|;
    }
  }

  // ----- the parser's state -----

  /** One recorded piece, and the mode it was recorded in. */
  datatype Part = Part(code: bool, text: string)

  datatype State = State(title: string, parts: seq<Part>, code: bool, skip: nat)

  const Fresh := State("", [], false, 0)

  function Record(s: State, data: string): State {
    var text := Squeeze(data);
    if s.skip > 0 || text == "" then s
    else State(if s.title == "" then Prefix(text) else s.title, s.parts + [Part(s.code, text)], s.code, s.skip)
  }

  /** `text[:200]`. */
  function Prefix(text: string): string {
    if |text| <= 200 then text else text[..200]
  }

  function Step(s: State, ev: Event): State {
    match ev
    case StartTag(tag) =>
      if IsSkip(tag) then s.(skip := s.skip + 1) else if IsCode(tag) then s.(code := true) else s
    case EndTag(tag) =>
      if IsSkip(tag) && s.skip > 0 then s.(skip := s.skip - 1) else if IsCode(tag) then s.(code := false) else s
    case Data(data) => Record(s, data)
  }

  function Run(s: State, evs: seq<Event>): State {
    if evs == [] then s else Step(Run(s, evs[..|evs| - 1]), evs[|evs| - 1])
  }

  function PartsOf(parts: seq<Part>, code: bool): seq<string> {
    if parts == [] then []
    else
      var last := parts[|parts| - 1];
      PartsOf(parts[..|parts| - 1], code) + (if last.code == code then [last.text] else [])
  }

  lemma PartsSnoc(parts: seq<Part>, p: Part)
    ensures PartsOf(parts + [p], p.code) == PartsOf(parts, p.code) + [p.text]
    ensures PartsOf(parts + [p], !p.code) == PartsOf(parts, !p.code)
  {
    assert (parts + [p])[..|parts|] == parts;
    assert PartsOf(parts, !p.code) + [] == PartsOf(parts, !p.code);
  }

  /** The parser object; `parts` is the order across its two lists. */
  class SanitizingHTMLParser {
    var title: string
    var textParts: seq<string>
    var codeParts: seq<string>
    var capture: string
    var skipDepth: nat
    ghost var parts: seq<Part>

    ghost predicate Valid()
      reads this
    {
      && textParts == PartsOf(parts, false) && codeParts == PartsOf(parts, true)
      && (capture == "text" || capture == "code")
    }

    ghost function Now(): State
      reads this
    {
      State(title, parts, capture == "code", skipDepth)
    }

    constructor ()
      ensures Valid() && Now() == Fresh
    {
      title, textParts, codeParts, capture, skipDepth, parts := "", [], [], "text", 0, [];
    }

    method HandleStartTag(tag: string)
      requires Valid()
      modifies this
      ensures Valid() && Now() == Step(old(Now()), StartTag(tag))
    {
      if IsSkip(tag) {
        skipDepth := skipDepth + 1;
        return;
      }
      if IsCode(tag) {
        capture := "code";
      }
    }

    method HandleEndTag(tag: string)
      requires Valid()
      modifies this
      ensures Valid() && Now() == Step(old(Now()), EndTag(tag))
    {
      if IsSkip(tag) && skipDepth > 0 {
        skipDepth := skipDepth - 1;
        return;
      }
      if IsCode(tag) {
        capture := "text";
      }
    }

    method HandleData(data: string)
      requires Valid()
      modifies this
      ensures Valid() && Now() == Step(old(Now()), Data(data))
    {
      hide Squeeze;
      hide PartsOf;
      if skipDepth > 0 {
        return;
      }
      var text := Squeeze(data);
      if text == "" {
        return;
      }
      if title == "" {
        title := Prefix(text);
      }
      PartsSnoc(parts, Part(capture == "code", text));
      if capture == "code" {
        codeParts := codeParts + [text];
      } else {
        textParts := textParts + [text];
      }
      parts := parts + [Part(capture == "code", text)];
    }
  }

  // ----- the skip counter on any event stream -----

  function Weight(ev: Event): int {
    match ev
    case StartTag(tag) => if IsSkip(tag) then 1 else 0
    case EndTag(tag) => if IsSkip(tag) then -1 else 0
    case Data(_) => 0
  }

  /** Starts minus ends of skip tags. */
  function Balance(evs: seq<Event>): int {
    if evs == [] then 0 else Balance(evs[..|evs| - 1]) + Weight(evs[|evs| - 1])
  }

  /** On any stream, balanced or not, the counter is the largest balance of a suffix of the stream. */
  lemma {:induction false} SkipIsLargestSuffix(evs: seq<Event>)
    ensures forall k :: 0 <= k <= |evs| ==> Balance(evs[k..]) <= Run(Fresh, evs).skip
    ensures exists k :: 0 <= k <= |evs| && Balance(evs[k..]) == Run(Fresh, evs).skip
  {
    if evs == [] {
      assert Balance(evs[0..]) == 0;
    } else {
      var n := |evs| - 1;
      var before, last := evs[..n], evs[n];
      SkipIsLargestSuffix(before);
      StepSkip(Run(Fresh, before), last);
      assert Balance(evs[|evs|..]) == 0;
      hide Step;
      hide Balance;
      hide Weight;
      forall k | 0 <= k <= n
        ensures Balance(evs[k..]) == Balance(before[k..]) + Weight(last)
      {
        BalanceTail(evs, k);
      }
      var k :| 0 <= k <= n && Balance(before[k..]) == Run(Fresh, before).skip;
      var best := if Run(Fresh, before).skip + Weight(last) >= 0 then k else |evs|;
      assert Balance(evs[best..]) == Run(Fresh, evs).skip;
    }
  }

  lemma StepSkip(s: State, ev: Event)
    ensures Step(s, ev).skip == if s.skip + Weight(ev) >= 0 then s.skip + Weight(ev) else 0
  {
  }

  lemma BalanceTail(evs: seq<Event>, k: nat)
    requires k < |evs|
    ensures Balance(evs[k..]) == Balance(evs[..|evs| - 1][k..]) + Weight(evs[|evs| - 1])
  {
    assert evs[k..][..|evs| - 1 - k] == evs[..|evs| - 1][k..];
  }

  predicate CodeTag(ev: Event) {
    !ev.Data? && IsCode(ev.tag)
  }

  /** Event `k` starts a pre or code element, and no pre or code tag follows. */
  predicate OpensLast(evs: seq<Event>, k: nat) {
    k < |evs| && evs[k].StartTag? && CodeTag(evs[k]) && NoCodeTag(evs[k + 1..])
  }

  lemma OpensLastSnoc(evs: seq<Event>, last: Event, k: nat)
    requires k < |evs|
    ensures OpensLast(evs + [last], k) <==> OpensLast(evs, k) && !CodeTag(last)
  {
    hide CodeTag;
    var all := evs + [last];
    assert all[k + 1..] == evs[k + 1..] + [last];
    var tail := evs[k + 1..];
    assert (tail + [last])[|tail|] == last;
    assert forall j :: 0 <= j < |tail| ==> (tail + [last])[j] == tail[j];
  }

  lemma StepCode(s: State, ev: Event)
    ensures Step(s, ev).code == if CodeTag(ev) then ev.StartTag? else s.code
  {
    CodeIsNotSkip(ev);
  }

  /** The capture mode is set by the last pre or code tag seen, whatever is being skipped. */
  lemma {:induction false} CaptureIsLastTag(evs: seq<Event>)
    ensures Run(Fresh, evs).code <==> exists k: nat :: OpensLast(evs, k)
  {
    hide Step;
    hide CodeTag;
    if evs != [] {
      var n := |evs| - 1;
      var before, last := evs[..n], evs[n];
      assert evs == before + [last];
      CaptureIsLastTag(before);
      StepCode(Run(Fresh, before), last);
      forall k: nat
        ensures OpensLast(evs, k) <==> if k < n then OpensLast(before, k) && !CodeTag(last)
                                       else k == n && last.StartTag? && CodeTag(last)
      {
        if k < n {
          OpensLastSnoc(before, last, k);
        } else if k == n {
          assert evs[k + 1..] == [];
        }
      }
      assert OpensLast(evs, n) <==> last.StartTag? && CodeTag(last);
    }
  }

  predicate NoCodeTag(evs: seq<Event>) {
    forall k :: 0 <= k < |evs| ==> !CodeTag(evs[k])
  }

  lemma CodeIsNotSkip(ev: Event)
    ensures !ev.Data? ==> !(IsCode(ev.tag) && IsSkip(ev.tag))
  {
  }

  // ----- well-nested documents -----

  datatype Node = Text(data: string) | Element(tag: string, children: seq<Node>)

  function Events(nodes: seq<Node>): seq<Event>
    decreases nodes, 1
  {
    if nodes == [] then [] else NodeEvents(nodes[0]) + Events(nodes[1..])
  }

  function NodeEvents(node: Node): seq<Event>
    decreases node, 0
  {
    match node
    case Text(data) => [Data(data)]
    case Element(tag, children) => [StartTag(tag)] + Events(children) + [EndTag(tag)]
  }

  /** The non-blank data outside every skipped element, in document order. */
  function VisibleData(nodes: seq<Node>): seq<string>
    decreases nodes, 1
  {
    if nodes == [] then [] else NodeData(nodes[0]) + VisibleData(nodes[1..])
  }

  function NodeData(node: Node): seq<string>
    decreases node, 0
  {
    match node
    case Text(data) => if Squeeze(data) == "" then [] else [Squeeze(data)]
    case Element(tag, children) => if IsSkip(tag) then [] else VisibleData(children)
  }

  function Texts(parts: seq<Part>): seq<string> {
    seq(|parts|, i requires 0 <= i < |parts| => parts[i].text)
  }

  lemma {:induction false} RunConcat(s: State, a: seq<Event>, b: seq<Event>)
    ensures Run(s, a + b) == Run(Run(s, a), b)
  {
    if b == [] {
      assert a + b == a;
    } else {
      RunConcat(s, a, b[..|b| - 1]);
      assert (a + b)[..|a + b| - 1] == a + b[..|b| - 1];
    }
  }

  lemma RunOne(s: State, ev: Event)
    ensures Run(s, [ev]) == Step(s, ev)
  {
    assert [ev][..0] == [];
  }

  lemma RunElement(s: State, tag: string, children: seq<Node>)
    ensures Run(s, NodeEvents(Element(tag, children)))
         == Step(Run(Step(s, StartTag(tag)), Events(children)), EndTag(tag))
  {
    RunConcat(s, [StartTag(tag)] + Events(children), [EndTag(tag)]);
    RunConcat(s, [StartTag(tag)], Events(children));
    RunOne(s, StartTag(tag));
    RunOne(Run(s, [StartTag(tag)] + Events(children)), EndTag(tag));
  }

  lemma RunForest(s: State, nodes: seq<Node>)
    requires nodes != []
    ensures Run(s, Events(nodes)) == Run(Run(s, NodeEvents(nodes[0])), Events(nodes[1..]))
  {
    RunConcat(s, NodeEvents(nodes[0]), Events(nodes[1..]));
  }

  /** Running a document records nothing inside a skipped element, else all visible data, and keeps the counter. */
  ghost predicate Recorded(s: State, s1: State, data: seq<string>) {
    && s1.skip == s.skip
    && (s.skip > 0 ==> s1.parts == s.parts && s1.title == s.title)
    && (s.skip == 0 ==> s.parts <= s1.parts && Texts(s1.parts) == Texts(s.parts) + data)
  }

  lemma RecordedTwice(s: State, s1: State, s2: State, a: seq<string>, b: seq<string>)
    requires Recorded(s, s1, a) && Recorded(s1, s2, b)
    ensures Recorded(s, s2, a + b)
  {
    assert Texts(s.parts) + a + b == Texts(s.parts) + (a + b);
  }

  lemma {:induction false} ForestRecorded(s: State, nodes: seq<Node>)
    ensures Recorded(s, Run(s, Events(nodes)), VisibleData(nodes))
    decreases nodes, 1
  {
    if nodes == [] {
      assert Texts(s.parts) + [] == Texts(s.parts);
    } else {
      var s1 := Run(s, NodeEvents(nodes[0]));
      RunConcat(s, NodeEvents(nodes[0]), Events(nodes[1..]));
      NodeRecorded(s, nodes[0]);
      ForestRecorded(s1, nodes[1..]);
      RecordedTwice(s, s1, Run(s1, Events(nodes[1..])), NodeData(nodes[0]), VisibleData(nodes[1..]));
    }
  }

  lemma {:induction false} NodeRecorded(s: State, node: Node)
    ensures Recorded(s, Run(s, NodeEvents(node)), NodeData(node))
    decreases node, 0
  {
    match node
    case Text(data) =>
      RunOne(s, Data(data));
      assert Texts(s.parts) + [] == Texts(s.parts);
    case Element(tag, children) =>
      RunElement(s, tag, children);
      ForestRecorded(Step(s, StartTag(tag)), children);
      assert Texts(s.parts) + [] == Texts(s.parts);
  }

  /**
    On every well-nested document, the recorded parts are together exactly the non-blank data with no
    script, iframe, style or form ancestor, in document order; and the counter ends at zero.
   */
  lemma DocumentRecorded(nodes: seq<Node>)
    ensures var s := Run(Fresh, Events(nodes));
            && Texts(s.parts) == VisibleData(nodes) && s.skip == 0
            && s.title == (if VisibleData(nodes) == [] then "" else Prefix(VisibleData(nodes)[0]))
  {
    ForestRecorded(Fresh, nodes);
    assert Texts(Fresh.parts) == [] && [] + VisibleData(nodes) == VisibleData(nodes);
    TitleIsFirst(Events(nodes));
    var parts := Run(Fresh, Events(nodes)).parts;
    assert parts != [] ==> Texts(parts)[0] == parts[0].text;
  }

  lemma {:induction false} TitleIsFirst(evs: seq<Event>)
    ensures var s := Run(Fresh, evs);
            && s.title == (if s.parts == [] then "" else Prefix(s.parts[0].text))
            && (s.parts != [] ==> s.parts[0].text != "")
  {
    if evs != [] {
      TitleIsFirst(evs[..|evs| - 1]);
    }
  }

  /** The title is the first recorded text, up to its 200th character. */
  lemma TitleMeaning(evs: seq<Event>)
    ensures var s := Run(Fresh, evs);
            && (s.parts == [] ==> s.title == "")
            && (s.parts != [] ==>
                  && s.title <= s.parts[0].text && |s.title| <= 200 && s.title != ""
                  && (s.title != s.parts[0].text ==> |s.title| == 200))
  {
    TitleIsFirst(evs);
    hide Run;
  }

  // ----- which of it is code -----

  /** The visible data, each marked by whether it has a pre or code ancestor. */
  function VisibleParts(nodes: seq<Node>, inCode: bool): seq<Part>
    decreases nodes, 1
  {
    if nodes == [] then [] else NodeParts(nodes[0], inCode) + VisibleParts(nodes[1..], inCode)
  }

  function NodeParts(node: Node, inCode: bool): seq<Part>
    decreases node, 0
  {
    match node
    case Text(data) => if Squeeze(data) == "" then [] else [Part(inCode, Squeeze(data))]
    case Element(tag, children) => if IsSkip(tag) then [] else VisibleParts(children, inCode || IsCode(tag))
  }

  /** From `s` to `s1` the parts `added` were recorded, unless skipping, and the mode is `code`. */
  ghost predicate Extends(s: State, s1: State, added: seq<Part>, code: bool) {
    s1.code == code && s1.skip == s.skip && s1.parts == s.parts + (if s.skip > 0 then [] else added)
  }

  lemma ExtendsTwice(s: State, s1: State, s2: State, a: seq<Part>, b: seq<Part>, code1: bool, code2: bool)
    requires Extends(s, s1, a, code1) && Extends(s1, s2, b, code2)
    ensures Extends(s, s2, a + b, code2)
  {
    assert s.parts + a + b == s.parts + (a + b);
  }

  /** The capture mode after a document, from `mode`: every pre or code tag sets it, also inside a skipped element. */
  predicate ModeAfter(nodes: seq<Node>, mode: bool)
    decreases nodes, 1
  {
    if nodes == [] then mode else ModeAfter(nodes[1..], NodeMode(nodes[0], mode))
  }

  predicate NodeMode(node: Node, mode: bool)
    decreases node, 0
  {
    match node
    case Text(_) => mode
    case Element(tag, children) => !IsCode(tag) && ModeAfter(children, mode)
  }

  /** The visible data, each marked by the capture mode it meets. */
  function HeardParts(nodes: seq<Node>, mode: bool): seq<Part>
    decreases nodes, 1
  {
    if nodes == [] then [] else NodeHeard(nodes[0], mode) + HeardParts(nodes[1..], NodeMode(nodes[0], mode))
  }

  function NodeHeard(node: Node, mode: bool): seq<Part>
    decreases node, 0
  {
    match node
    case Text(data) => if Squeeze(data) == "" then [] else [Part(mode, Squeeze(data))]
    case Element(tag, children) => if IsSkip(tag) then [] else HeardParts(children, mode || IsCode(tag))
  }

  /**
    Every visible text meets the mode of where it stands: below pre or code, none follows the end of a
    nested pre or code element, unless another one has opened around it.
   */
  predicate Filed(nodes: seq<Node>, inCode: bool, mode: bool)
    decreases nodes, 1
  {
    nodes == [] || (NodeFiled(nodes[0], inCode, mode) && Filed(nodes[1..], inCode, NodeMode(nodes[0], mode)))
  }

  predicate NodeFiled(node: Node, inCode: bool, mode: bool)
    decreases node, 0
  {
    match node
    case Text(data) => Squeeze(data) == "" || mode == inCode
    case Element(tag, children) => IsSkip(tag) || Filed(children, inCode || IsCode(tag), mode || IsCode(tag))
  }

  /** Running a document records what is heard of it. */
  lemma {:induction false} ForestHeard(s: State, nodes: seq<Node>)
    ensures Extends(s, Run(s, Events(nodes)), HeardParts(nodes, s.code), ModeAfter(nodes, s.code))
    decreases nodes, 1
  {
    if nodes != [] {
      RunForest(s, nodes);
      hide Run;
      hide NodeHeard;
      hide NodeMode;
      hide NodeEvents;
      var s1 := Run(s, NodeEvents(nodes[0]));
      NodeIsHeard(s, nodes[0]);
      ForestHeard(s1, nodes[1..]);
      ExtendsTwice(s, s1, Run(s1, Events(nodes[1..])), NodeHeard(nodes[0], s.code), HeardParts(nodes[1..], s1.code),
                   s1.code, ModeAfter(nodes[1..], s1.code));
    }
  }

  lemma {:induction false} NodeIsHeard(s: State, node: Node)
    ensures Extends(s, Run(s, NodeEvents(node)), NodeHeard(node, s.code), NodeMode(node, s.code))
    decreases node, 0
  {
    match node
    case Text(data) => RunOne(s, Data(data));
    case Element(tag, children) =>
      RunElement(s, tag, children);
      CodeIsNotSkip(StartTag(tag));
      var s1 := Step(s, StartTag(tag));
      ForestHeard(s1, children);
  }

  /** Heard and visible parts are as many, and the same exactly when the document is filed. */
  lemma {:induction false} HeardIff(nodes: seq<Node>, inCode: bool, mode: bool)
    ensures |HeardParts(nodes, mode)| == |VisibleParts(nodes, inCode)|
    ensures HeardParts(nodes, mode) == VisibleParts(nodes, inCode) <==> Filed(nodes, inCode, mode)
    decreases nodes, 1
  {
    if nodes != [] {
      hide NodeHeard;
      hide NodeParts;
      hide NodeFiled;
      hide NodeMode;
      NodeHeardIff(nodes[0], inCode, mode);
      HeardIff(nodes[1..], inCode, NodeMode(nodes[0], mode));
      SplitEqual(NodeHeard(nodes[0], mode), HeardParts(nodes[1..], NodeMode(nodes[0], mode)),
                 NodeParts(nodes[0], inCode), VisibleParts(nodes[1..], inCode));
    }
  }

  lemma {:induction false} NodeHeardIff(node: Node, inCode: bool, mode: bool)
    ensures |NodeHeard(node, mode)| == |NodeParts(node, inCode)|
    ensures NodeHeard(node, mode) == NodeParts(node, inCode) <==> NodeFiled(node, inCode, mode)
    decreases node, 0
  {
    match node
    case Text(data) =>
      assert [Part(mode, Squeeze(data))][0].code == mode && [Part(inCode, Squeeze(data))][0].code == inCode;
    case Element(tag, children) => HeardIff(children, inCode || IsCode(tag), mode || IsCode(tag));
  }

  lemma SplitEqual(a: seq<Part>, b: seq<Part>, c: seq<Part>, d: seq<Part>)
    requires |a| == |c|
    ensures a + b == c + d <==> a == c && b == d
  {
    if a + b == c + d {
      assert a == (a + b)[..|a|] == (c + d)[..|c|] == c;
      assert b == (a + b)[|a|..] == (c + d)[|c|..] == d;
    }
  }

  /** The parts record exactly which visible data stands below pre or code if and only if the document is filed. */
  lemma FiledIff(nodes: seq<Node>)
    ensures Run(Fresh, Events(nodes)).parts == VisibleParts(nodes, false) <==> Filed(nodes, false, false)
  {
    ForestHeard(Fresh, nodes);
    HeardIff(nodes, false, false);
    assert [] + HeardParts(nodes, false) == HeardParts(nodes, false);
  }

  /** The common nesting is filed: one code element that fills its pre. */
  lemma WrappedCodeFiled(code: seq<Node>)
    requires Filed(code, true, true)
    ensures Filed([Element("pre", [Element("code", code)])], false, false)
  {
    assert Lower("pre") == "pre" && Lower("code") == "code";
    var inner, outer := Element("code", code), Element("pre", [Element("code", code)]);
    assert [inner][1..] == [] && [outer][1..] == [];
    assert NodeFiled(inner, true, true);
    assert Filed([inner][1..], true, NodeMode(inner, true));
    assert NodeFiled(outer, false, false);
  }

  const CodeA := Element("code", [Text("a")])
  const PreAB := Element("pre", [CodeA, Text("b")])

  /** Nested, it can go wrong: after `</code>`, the rest of the enclosing pre counts as text. */
  lemma NestedCodeMisfiled()
    ensures VisibleParts([PreAB], false) == [Part(true, "a"), Part(true, "b")]
    ensures Run(Fresh, Events([PreAB])).parts == [Part(true, "a"), Part(false, "b")]
  {
    NestedVisible();
    NestedRun();
    assert Events([PreAB]) == NodeEvents(PreAB) + [] == NodeEvents(PreAB) by {
      assert [PreAB][1..] == [];
    }
  }

  lemma NestedVisible()
    ensures VisibleParts([PreAB], false) == [Part(true, "a"), Part(true, "b")]
  {
    hide Squeeze;
    OneLetter("a");
    OneLetter("b");
    assert Lower("pre") == "pre" && Lower("code") == "code";
    assert [Text("a")][1..] == [] && [CodeA, Text("b")][1..] == [Text("b")]
           && [Text("b")][1..] == [] && [PreAB][1..] == [];
    assert VisibleParts([Text("a")], true) == [Part(true, "a")] && VisibleParts([Text("b")], true) == [Part(true, "b")];
    assert VisibleParts([CodeA, Text("b")], true) == [Part(true, "a")] + [Part(true, "b")];
  }

  lemma NestedRun()
    ensures Run(Fresh, NodeEvents(PreAB)).parts == [Part(true, "a"), Part(false, "b")]
  {
    hide Squeeze;
    hide Run;
    OneLetter("a");
    OneLetter("b");
    assert Lower("pre") == "pre" && Lower("code") == "code";
    var s1 := Step(Fresh, StartTag("pre"));
    var s2 := Step(s1, StartTag("code"));
    RunOne(s2, Data("a"));
    OneText("a");
    RunElement(s1, "code", [Text("a")]);
    var s3 := Run(s1, NodeEvents(CodeA));
    RunOne(s3, Data("b"));
    OneText("b");
    RunForest(s1, [CodeA, Text("b")]);
    assert [CodeA, Text("b")][1..] == [Text("b")];
    RunElement(Fresh, "pre", [CodeA, Text("b")]);
  }

  lemma OneText(data: string)
    ensures Events([Text(data)]) == [Data(data)]
  {
    assert [Text(data)][1..] == [];
  }

  lemma OneLetter(s: string)
    requires |s| == 1 && !IsSpace(s[0])
    ensures Squeeze(s) == s
  {
    assert s[1..] == "" && WordEnd(s) == 1;
    assert Words(s) == [s[..1]] + Words(s[1..]);
    assert s[..1] == s;
  }
}
