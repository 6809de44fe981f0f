/**
  The seen-comment store of `src/comment-watch-store.mjs` and the suggestion card workflow of
  `src/comment-suggestion-workflow.mjs`: a comment version is carried by at most one marked card.
 */
module CommentWatch {
  import opened JsText

  datatype Comment = Comment(id: string, updateTime: string, latestReply: string, solved: bool)

  /** One scope's entry: when each fingerprint was seen, and the last update. */
  datatype Scope = Scope(fingerprints: map<string, string>, updatedAt: string)

  type Items = map<string, Scope>

  function ScopeKey(account: string, document: string): string {
    (if account == "" then "default" else account) + "::" + document
  }

  function Payload(c: Comment): string {
    c.id + "::" + c.updateTime + "::" + c.latestReply + "::" + (if c.solved then "true" else "false")
  }

  function Fingerprints(hash: string -> string, comments: seq<Comment>): set<string> {
    set c | c in comments :: hash(Payload(c))
  }

  function Bucket(items: Items, key: string): map<string, string> {
    if key in items then items[key].fingerprints else map[]
  }

  /** The fingerprints that count as seen: those stored with a truthy time. */
  function Seen(items: Items, key: string): set<string> {
    set f | f in Bucket(items, key) && Bucket(items, key)[f] != ""
  }

  /** `comments.filter((comment) => !bucket[fingerprint])`. */
  function Unseen(hash: string -> string, items: Items, key: string, comments: seq<Comment>): seq<Comment> {
    if comments == [] then []
    else
      (if hash(Payload(comments[0])) in Seen(items, key) then [] else [comments[0]])
      + Unseen(hash, items, key, comments[1..])
  }

  lemma {:induction false} UnseenMeaning(hash: string -> string, items: Items, key: string, comments: seq<Comment>)
    ensures Fingerprints(hash, Unseen(hash, items, key, comments)) == Fingerprints(hash, comments) - Seen(items, key)
    ensures forall c :: c in Unseen(hash, items, key, comments) <==>
              c in comments && hash(Payload(c)) !in Seen(items, key)
  {
    if comments != [] {
      var c, rest := comments[0], comments[1..];
      var more := Unseen(hash, items, key, rest);
      UnseenMeaning(hash, items, key, rest);
      FingerprintsCons(hash, c, rest);
      FingerprintsCons(hash, c, more);
      assert comments == [c] + rest && [] + more == more;
    }
  }

  /** They stand in the order of the listing. */
  lemma {:induction false} UnseenOrder(hash: string -> string, items: Items, key: string,
                                       before: seq<Comment>, after: seq<Comment>)
    ensures Unseen(hash, items, key, before + after)
         == Unseen(hash, items, key, before) + Unseen(hash, items, key, after)
  {
    hide *;
    UnseenFirst(hash, items, key, before);
    UnseenFirst(hash, items, key, before + after);
    if before == [] {
      assert before + after == after;
    } else {
      UnseenOrder(hash, items, key, before[1..], after);
      assert (before + after)[1..] == before[1..] + after;
      Regroup(if hash(Payload(before[0])) in Seen(items, key) then [] else [before[0]],
              Unseen(hash, items, key, before[1..]), Unseen(hash, items, key, after));
    }
  }

  lemma UnseenFirst(hash: string -> string, items: Items, key: string, comments: seq<Comment>)
    ensures Unseen(hash, items, key, comments)
         == if comments == [] then []
            else (if hash(Payload(comments[0])) in Seen(items, key) then [] else [comments[0]])
                 + Unseen(hash, items, key, comments[1..])
  {
    hide Payload, Seen;
  }

  /**
    The payload tells any two versions of comments apart, as long as ids and times hold no colon: an edited,
    answered or solved comment has another one.
   */
  lemma PayloadsEqual(c: Comment, d: Comment)
    requires ':' !in c.id && ':' !in d.id && ':' !in c.updateTime && ':' !in d.updateTime
    ensures Payload(c) == Payload(d) <==> c == d
  {
    if Payload(c) == Payload(d) {
      var cr, dr := c.updateTime + "::" + LastPart(c), d.updateTime + "::" + LastPart(d);
      assert Payload(c) == c.id + "::" + cr && Payload(d) == d.id + "::" + dr;
      SplitAtColon(c.id, cr, d.id, dr);
      SplitAtColon(c.updateTime, LastPart(c), d.updateTime, LastPart(d));
      SameEnd(c, d);
    }
  }

  function LastPart(c: Comment): string {
    c.latestReply + "::" + (if c.solved then "true" else "false")
  }

  lemma SplitAtColon(a: string, x: string, b: string, y: string)
    requires ':' !in a && ':' !in b && a + "::" + x == b + "::" + y
    ensures a == b && x == y
  {
    var s := a + "::" + x;
    assert s[|a|] == ':' && s[|b|] == ':';
    assert forall i :: 0 <= i < |a| ==> s[i] == a[i];
    assert forall i :: 0 <= i < |b| ==> s[i] == b[i];
    assert |a| == |b|;
    assert a == s[..|a|] && b == s[..|b|];
    assert x == s[|a| + 2..] && y == s[|b| + 2..];
  }

  lemma SameEnd(c: Comment, d: Comment)
    requires LastPart(c) == LastPart(d)
    ensures c.latestReply == d.latestReply && c.solved == d.solved
  {
    var s, t := LastPart(c), LastPart(d);
    assert s[|s| - 2] == (if c.solved then 'u' else 's') && t[|t| - 2] == (if d.solved then 'u' else 's');
    assert c.latestReply == s[..|c.latestReply|] && d.latestReply == t[..|d.latestReply|];
  }

  lemma FingerprintsCons(hash: string -> string, c: Comment, rest: seq<Comment>)
    ensures Fingerprints(hash, [c] + rest) == {hash(Payload(c))} + Fingerprints(hash, rest)
  {
    assert forall d :: d in [c] + rest <==> d == c || d in rest;
  }

  lemma FingerprintsSnoc(hash: string -> string, rest: seq<Comment>, c: Comment)
    ensures Fingerprints(hash, rest + [c]) == Fingerprints(hash, rest) + {hash(Payload(c))}
  {
    assert forall d :: d in rest + [c] <==> d == c || d in rest;
  }

  /** The store after the comments were marked seen at `now`. */
  function Marked(hash: string -> string, items: Items, key: string, comments: seq<Comment>, now: string): Items {
    items[key := Scope(Bucket(items, key) + Stamped(hash, comments, now), now)]
  }

  function Stamped(hash: string -> string, comments: seq<Comment>, now: string): map<string, string> {
    map f | f in Fingerprints(hash, comments) :: now
  }

  lemma StampOne(hash: string -> string, bucket: map<string, string>, done: seq<Comment>, c: Comment, now: string)
    ensures (bucket + Stamped(hash, done, now))[hash(Payload(c)) := now] == bucket + Stamped(hash, done + [c], now)
  {
    FingerprintsSnoc(hash, done, c);
  }

  lemma MarkedMeaning(hash: string -> string, items: Items, key: string, comments: seq<Comment>, now: string)
    requires now != ""
    ensures var after := Marked(hash, items, key, comments, now);
            && Seen(after, key) == Seen(items, key) + Fingerprints(hash, comments)
            && forall k :: k != key ==> Bucket(after, k) == Bucket(items, k)
  {
  }

  // ----- one call of the workflow -----

  datatype Preview = PreviewRaised | NoConfirmation | Confirmed

  /** What one call is given, and how the services it calls answer. */
  datatype Call = Call(
    account: string, document: string, comments: seq<Comment>, preview: Preview,
    messageId: string, replyOk: bool, markSeen: bool, markOk: bool, now: string)

  /** What comes of a call; with `MarkRaised` the card went out, but its comments were not marked. */
  datatype Outcome = NothingNew | Raised | MarkRaised(comments: seq<Comment>) | Card(comments: seq<Comment>)

  /** A card went out. */
  predicate Sends(r: Outcome) {
    r.MarkRaised? || r.Card?
  }

  function Key(call: Call): string {
    ScopeKey(call.account, call.document)
  }

  /** The outcome of `generateDocumentCommentSuggestionCard`. */
  function Result(hash: string -> string, items: Items, call: Call): Outcome {
    var unseen := Unseen(hash, items, Key(call), call.comments);
    if unseen == [] || call.preview == NoConfirmation then NothingNew
    else if call.preview == PreviewRaised || (Trim(call.messageId) != "" && !call.replyOk) then Raised
    else if call.markSeen && !call.markOk then MarkRaised(unseen)
    else Card(unseen)
  }

  /** A comment is listed whose fingerprint is not stored, or stored without a time. */
  ghost predicate HasNew(hash: string -> string, items: Items, call: Call) {
    exists c :: c in call.comments && !Stored(items, Key(call), hash(Payload(c)))
  }

  predicate Stored(items: Items, key: string, f: string) {
    key in items && f in items[key].fingerprints && items[key].fingerprints[f] != ""
  }

  /** The reply with the card is not asked for, or succeeds. */
  predicate Replies(call: Call) {
    call.replyOk || forall c :: c in call.messageId ==> IsSpace(c)
  }

  /** The store it leaves: marked when a card went out and marking was asked for, else as it was. */
  function Store(hash: string -> string, items: Items, call: Call): Items {
    var r := Result(hash, items, call);
    if r.Card? && call.markSeen then Marked(hash, items, Key(call), r.comments, call.now) else items
  }

  /**
    What decides a call: it sends a card exactly when something is new, the preview is confirmed and the reply
    is not needed or goes through; it raises before that exactly when the preview or the reply fails. The card
    carries exactly the listed comments that were not stored.
   */
  lemma ResultMeaning(hash: string -> string, items: Items, call: Call)
    ensures var r := Result(hash, items, call);
            && (Sends(r) <==> HasNew(hash, items, call) && call.preview == Confirmed && Replies(call))
            && (r == Raised <==>
                  HasNew(hash, items, call)
                  && (call.preview == PreviewRaised || (call.preview == Confirmed && !Replies(call))))
            && (r.MarkRaised? <==> Sends(r) && call.markSeen && !call.markOk)
            && (Sends(r) ==>
                  forall c :: c in r.comments <==> c in call.comments && !Stored(items, Key(call), hash(Payload(c))))
  {
    hide *;
    UnseenMeaning(hash, items, Key(call), call.comments);
    TrimMeaning(call.messageId);
    var unseen := Unseen(hash, items, Key(call), call.comments);
    forall c
      ensures hash(Payload(c)) in Seen(items, Key(call)) <==> Stored(items, Key(call), hash(Payload(c)))
    {
      StoredIs(items, Key(call), hash(Payload(c)));
    }
    if unseen != [] {
      assert unseen[0] in unseen;
    }
    NewOrNot(hash, items, call, unseen);
    ResultCases(hash, items, call, unseen);
  }

  lemma StoredIs(items: Items, key: string, f: string)
    ensures f in Seen(items, key) <==> Stored(items, key, f)
  {
  }

  lemma NewOrNot(hash: string -> string, items: Items, call: Call, unseen: seq<Comment>)
    requires forall c :: c in unseen <==> c in call.comments && !Stored(items, Key(call), hash(Payload(c)))
    ensures HasNew(hash, items, call) <==> unseen != []
  {
    hide Payload, Stored;
    if c :| c in call.comments && !Stored(items, Key(call), hash(Payload(c))) {
      assert c in unseen;
    }
    if unseen != [] {
      assert unseen[0] in unseen;
    }
  }

  lemma ResultCases(hash: string -> string, items: Items, call: Call, unseen: seq<Comment>)
    requires unseen == Unseen(hash, items, Key(call), call.comments)
    requires Trim(call.messageId) == "" <==> forall c :: c in call.messageId ==> IsSpace(c)
    ensures var r := Result(hash, items, call);
            && (Sends(r) <==> unseen != [] && call.preview == Confirmed && Replies(call))
            && (r == Raised <==>
                  unseen != [] && (call.preview == PreviewRaised || (call.preview == Confirmed && !Replies(call))))
            && (r.MarkRaised? <==> Sends(r) && call.markSeen && !call.markOk)
            && (Sends(r) ==> r.comments == unseen)
  {
    hide Unseen, Trim, IsSpace, Payload;
  }

  /** A call changes the store only when its card went out and it marks: then exactly its comments become stored. */
  lemma StoreMeaning(hash: string -> string, items: Items, call: Call)
    requires call.now != ""
    ensures var r, after := Result(hash, items, call), Store(hash, items, call);
            && (!Sends(r) || !call.markSeen || !call.markOk ==> after == items)
            && (Sends(r) && call.markSeen && call.markOk ==>
                  && (forall key, f :: key != Key(call) ==> (Stored(after, key, f) <==> Stored(items, key, f)))
                  && (forall f :: Stored(after, Key(call), f) <==>
                        Stored(items, Key(call), f) || exists c :: c in call.comments && f == hash(Payload(c))))
  {
    hide Payload;
    hide Trim;
    UnseenMeaning(hash, items, Key(call), call.comments);
    var r := Result(hash, items, call);
    if r.Card? && call.markSeen {
      MarkedMeaning(hash, items, Key(call), r.comments, call.now);
      assert forall key, f :: Stored(items, key, f) <==> f in Seen(items, key);
      assert forall c :: c in call.comments ==> hash(Payload(c)) in Fingerprints(hash, call.comments);
    }
  }

  class WatchStore {
    const hash: string -> string
    var items: Items

    constructor (hash: string -> string, items: Items)
      ensures this.hash == hash && this.items == items
    {
      this.hash := hash;
      this.items := items;
    }

    /** `markDocumentCommentsSeen`. */
    method MarkSeen(account: string, document: string, comments: seq<Comment>, now: string)
      modifies this
      ensures items == Marked(hash, old(items), ScopeKey(account, document), comments, now)
    {
      var key := ScopeKey(account, document);
      var bucket := Bucket(items, key);
      assert bucket == bucket + Stamped(hash, comments[..0], now);
      for i := 0 to |comments|
        invariant items == old(items)
        invariant bucket == Bucket(items, key) + Stamped(hash, comments[..i], now)
      {
        StampOne(hash, Bucket(items, key), comments[..i], comments[i], now);
        assert comments[..i + 1] == comments[..i] + [comments[i]];
        bucket := bucket[hash(Payload(comments[i])) := now];
      }
      assert comments[..|comments|] == comments;
      items := items[key := Scope(bucket, now)];
    }

    /** `generateDocumentCommentSuggestionCard`: notify first, mark only after that. */
    method GenerateCard(call: Call) returns (r: Outcome)
      modifies this
      ensures r == Result(hash, old(items), call)
      ensures items == Store(hash, old(items), call)
    {
      var unseen := Unseen(hash, items, Key(call), call.comments);
      if unseen == [] {
        return NothingNew;
      }
      if call.preview == PreviewRaised {
        return Raised;
      }
      if call.preview == NoConfirmation {
        return NothingNew;
      }
      if Trim(call.messageId) != "" {
        if !call.replyOk {
          return Raised;
        }
      }
      if call.markSeen {
        if !call.markOk {
          return MarkRaised(unseen);
        }
        MarkSeen(call.account, call.document, unseen, call.now);
      }
      r := Card(unseen);
    }
  }

  // ----- runs of calls, one after the other -----

  ghost predicate Timed(calls: seq<Call>) {
    forall i :: 0 <= i < |calls| ==> calls[i].now != ""
  }

  function After(hash: string -> string, items: Items, calls: seq<Call>): Items {
    if calls == [] then items
    else Store(hash, After(hash, items, calls[..|calls| - 1]), calls[|calls| - 1])
  }

  /** The outcome of call `i` of a run. */
  function ResultAt(hash: string -> string, items: Items, calls: seq<Call>, i: nat): Outcome
    requires i < |calls|
  {
    Result(hash, After(hash, items, calls[..i]), calls[i])
  }

  /** The fingerprints that call `i` sends out and marks, if it is a marked card of the scope. */
  function MarkedBy(hash: string -> string, items: Items, calls: seq<Call>, i: nat, key: string): set<string>
    requires i < |calls|
  {
    var r := ResultAt(hash, items, calls, i);
    if r.Card? && calls[i].markSeen && Key(calls[i]) == key then Fingerprints(hash, r.comments) else {}
  }

  /** The union of those over the first `n` calls. */
  function MarkedUpTo(hash: string -> string, items: Items, calls: seq<Call>, n: nat, key: string): set<string>
    requires n <= |calls|
  {
    if n == 0 then {} else MarkedUpTo(hash, items, calls, n - 1, key) + MarkedBy(hash, items, calls, n - 1, key)
  }

  /** The stored bucket of every scope is the initial one and exactly what marked cards of that scope carried. */
  lemma {:induction false} BucketIsUnion(hash: string -> string, items: Items, calls: seq<Call>, n: nat, key: string)
    requires Timed(calls) && n <= |calls|
    ensures Seen(After(hash, items, calls[..n]), key) == Seen(items, key) + MarkedUpTo(hash, items, calls, n, key)
  {
    if n > 0 {
      BucketIsUnion(hash, items, calls, n - 1, key);
      assert calls[..n][..n - 1] == calls[..n - 1];
      var before, call := After(hash, items, calls[..n - 1]), calls[n - 1];
      var r := Result(hash, before, call);
      if r.Card? && call.markSeen {
        MarkedMeaning(hash, before, Key(call), r.comments, call.now);
      }
    }
  }

  lemma {:induction false} MarkedGrows(hash: string -> string, items: Items, calls: seq<Call>, i: nat,
                                  n: nat, key: string)
    requires i < n <= |calls|
    ensures MarkedBy(hash, items, calls, i, key) <= MarkedUpTo(hash, items, calls, n, key)
  {
    hide MarkedBy;
    if i < n - 1 {
      MarkedGrows(hash, items, calls, i, n - 1, key);
    }
  }

  /** At most once: what a marked card carried, no later card of the same scope carries again. */
  lemma AtMostOnce(hash: string -> string, items: Items, calls: seq<Call>, i: nat, j: nat)
    requires Timed(calls) && i < j < |calls| && Key(calls[i]) == Key(calls[j]) && calls[i].markSeen
    requires ResultAt(hash, items, calls, i).Card? && Sends(ResultAt(hash, items, calls, j))
    ensures Fingerprints(hash, ResultAt(hash, items, calls, i).comments)
         !! Fingerprints(hash, ResultAt(hash, items, calls, j).comments)
  {
    var key := Key(calls[j]);
    BucketIsUnion(hash, items, calls, j, key);
    MarkedGrows(hash, items, calls, i, j, key);
    UnseenMeaning(hash, After(hash, items, calls[..j]), key, calls[j].comments);
  }

  /** Nothing new is missed: a comment version never marked is carried by the card of any call that lists it. */
  lemma NothingMissed(hash: string -> string, items: Items, calls: seq<Call>, j: nat, c: Comment)
    requires Timed(calls) && j < |calls| && c in calls[j].comments
    requires hash(Payload(c)) !in Seen(items, Key(calls[j])) + MarkedUpTo(hash, items, calls, j, Key(calls[j]))
    ensures match ResultAt(hash, items, calls, j)
            case Card(comments) => hash(Payload(c)) in Fingerprints(hash, comments)
            case MarkRaised(comments) => hash(Payload(c)) in Fingerprints(hash, comments)
            case NothingNew => calls[j].preview == NoConfirmation
            case Raised =>
              calls[j].preview == PreviewRaised
              || (calls[j].preview == Confirmed && !calls[j].replyOk && Trim(calls[j].messageId) != "")
  {
    BucketIsUnion(hash, items, calls, j, Key(calls[j]));
    hide After;
    hide MarkedUpTo;
    hide Payload;
    hide Seen;
    ListedUnseen(hash, After(hash, items, calls[..j]), Key(calls[j]), calls[j].comments, c);
  }

  lemma ListedUnseen(hash: string -> string, items: Items, key: string, comments: seq<Comment>, c: Comment)
    requires c in comments && hash(Payload(c)) !in Seen(items, key)
    ensures var unseen := Unseen(hash, items, key, comments);
            unseen != [] && hash(Payload(c)) in Fingerprints(hash, unseen)
  {
    hide Seen;
    UnseenMeaning(hash, items, key, comments);
    assert hash(Payload(c)) in Fingerprints(hash, comments);
    assert hash(Payload(c)) in Fingerprints(hash, Unseen(hash, items, key, comments));
  }

  /** When marking raises after the card went out, the next call that lists the comments sends them again. */
  lemma FailedMarkRepeats(hash: string -> string, items: Items, calls: seq<Call>)
    requires |calls| == 2 && Key(calls[0]) == Key(calls[1]) && calls[0].comments == calls[1].comments
    requires ResultAt(hash, items, calls, 0).MarkRaised? && Sends(ResultAt(hash, items, calls, 1))
    ensures ResultAt(hash, items, calls, 1).comments == ResultAt(hash, items, calls, 0).comments
    ensures Fingerprints(hash, ResultAt(hash, items, calls, 0).comments)
          * Fingerprints(hash, ResultAt(hash, items, calls, 1).comments) != {}
  {
    assert calls[..1][..0] == calls[..0] == [];
    var sent := ResultAt(hash, items, calls, 0).comments;
    var f := hash(Payload(sent[0]));
    assert f in Fingerprints(hash, sent) * Fingerprints(hash, sent);
  }

  // ----- scope keys -----

  /** What every scope key of an account starts with. */
  function Head(account: string): string {
    (if account == "" then "default" else account) + "::"
  }

  /** One account's head starts the other's: "a" and "a::b" do, "a" and "a:b" do not. */
  predicate HeadsMeet(a: string, b: string) {
    Head(a) <= Head(b) || Head(b) <= Head(a)
  }

  /** Two scope keys are equal exactly when the longer head is the shorter one and the start of its document. */
  lemma SameScope(a: string, d: string, b: string, e: string)
    requires |Head(a)| <= |Head(b)|
    ensures ScopeKey(a, d) == ScopeKey(b, e) <==> Head(a) <= Head(b) && d == Head(b)[|Head(a)|..] + e
  {
    var h, g := Head(a), Head(b);
    assert ScopeKey(a, d) == h + d && ScopeKey(b, e) == g + e;
    if h <= g {
      assert h + (g[|h|..] + e) == g + e;
    }
    if h + d == g + e {
      assert h == (g + e)[..|h|] == g[..|h|];
      assert d == (g + e)[|h|..] == g[|h|..] + e;
    }
  }

  /** Two accounts can share a scope if and only if one's head starts the other's. */
  lemma ScopesShareIff(a: string, b: string)
    ensures (exists d, e :: ScopeKey(a, d) == ScopeKey(b, e)) <==> HeadsMeet(a, b)
  {
    if d, e :| ScopeKey(a, d) == ScopeKey(b, e) {
      if |Head(a)| <= |Head(b)| {
        SameScope(a, d, b, e);
      } else {
        SameScope(b, e, a, d);
      }
    }
    if Head(a) <= Head(b) {
      SameScope(a, Head(b)[|Head(a)|..] + "", b, "");
    } else if Head(b) <= Head(a) {
      SameScope(b, Head(a)[|Head(b)|..] + "", a, "");
    }
  }

  /** Otherwise, as for all accounts without a colon, scopes are one account's and one document's. */
  lemma ScopesApart(a: string, d: string, b: string, e: string)
    requires Head(a) == Head(b) || !HeadsMeet(a, b)
    ensures ScopeKey(a, d) == ScopeKey(b, e) <==> Head(a) == Head(b) && d == e
  {
    if |Head(a)| <= |Head(b)| {
      SameScope(a, d, b, e);
    } else {
      SameScope(b, e, a, d);
    }
    assert [] + e == e;
  }

  lemma NoColonApart(a: string, b: string)
    requires ':' !in a && ':' !in b && HeadsMeet(a, b)
    ensures Head(a) == Head(b)
  {
    var h, g := Head(a), Head(b);
    assert h[|h| - 2] == ':' && g[|g| - 2] == ':';
    assert forall i :: 0 <= i < |h| - 2 ==> h[i] != ':';
    assert forall i :: 0 <= i < |g| - 2 ==> g[i] != ':';
  }

  /** Two that do share; so do the empty account and the one named "default". */
  lemma ScopesShared()
    ensures ScopeKey("a", "b::c") == ScopeKey("a::b", "c") && ScopeKey("", "d") == ScopeKey("default", "d")
  {
    assert "a" + "::" + "b::c" == "a::b" + "::" + "c";
  }

  // ----- paging -----

  datatype Page = Page(items: seq<Comment>, hasMore: bool, token: string)

  function Sent(pages: seq<Page>, i: nat): string
    requires i <= |pages|
  {
    if i == 0 then "" else pages[i - 1].token
  }

  /** No page is asked for after page `k`. */
  predicate EndsAt(pages: seq<Page>, k: nat)
    requires k < |pages|
  {
    !pages[k].hasMore || pages[k].token == "" || Sent(pages, k) == pages[k].token
  }

  function AllItems(pages: seq<Page>): seq<Comment> {
    if pages == [] then [] else AllItems(pages[..|pages| - 1]) + pages[|pages| - 1].items
  }

  lemma AllItemsStep(pages: seq<Page>, n: nat)
    requires n < |pages|
    ensures AllItems(pages[..n + 1]) == AllItems(pages[..n]) + pages[n].items
  {
    assert pages[..n + 1][..n] == pages[..n];
  }

  /** Which page is the last: one without more to come, without a token, or with the token that asked for it. */
  lemma EndMeaning(pages: seq<Page>, k: nat)
    requires k < |pages|
    ensures !pages[k].hasMore || pages[k].token == "" ==> EndsAt(pages, k)
    ensures pages[k].hasMore && pages[k].token != "" ==>
              (EndsAt(pages, k) <==> k > 0 && pages[k - 1].token == pages[k].token)
  {
  }

  /** The items of the pages, all of them and in order. */
  lemma {:induction false} AllItemsConcat(before: seq<Page>, after: seq<Page>)
    ensures AllItems(before + after) == AllItems(before) + AllItems(after)
    ensures |before| == 1 ==> AllItems(before) == before[0].items
  {
    hide *;
    AllItemsLast(before);
    AllItemsLast(after);
    AllItemsLast(before + after);
    if after == [] {
      assert before + after == before;
    } else {
      var n := |after| - 1;
      AllItemsConcat(before, after[..n]);
      assert (before + after)[..|before| + n] == before + after[..n];
      Regroup(AllItems(before), AllItems(after[..n]), after[n].items);
    }
    if |before| == 1 {
      AllItemsLast(before[..0]);
    }
  }

  lemma AllItemsLast(pages: seq<Page>)
    ensures AllItems(pages) == if pages == [] then [] else AllItems(pages[..|pages| - 1]) + pages[|pages| - 1].items
  {
  }

  lemma Regroup(a: seq<Comment>, b: seq<Comment>, c: seq<Comment>)
    ensures a + b + c == a + (b + c)
  {
  }

  /** A service whose cursor moves on until its last page is read to the end. */
  lemma CursorReadsAll(pages: seq<Page>, k: nat)
    requires k < |pages| && !pages[|pages| - 1].hasMore
    requires forall i :: 0 <= i < |pages| - 1 ==> pages[i].hasMore && pages[i].token != ""
    requires forall i :: 0 < i < |pages| ==> pages[i].token != pages[i - 1].token
    ensures EndsAt(pages, k) <==> k == |pages| - 1
  {
    EndMeaning(pages, k);
  }

  /**
    `listAllUnresolvedDocumentComments`, against the pages that the service answers with, one per request.
    It ends at the first page without more, without a token, or repeating the token just sent.
   */
  method ListAllUnresolved(pages: seq<Page>) returns (items: seq<Comment>, requests: nat)
    requires exists k :: 0 <= k < |pages| && EndsAt(pages, k)
    ensures 0 < requests <= |pages| && EndsAt(pages, requests - 1)
    ensures forall k :: 0 <= k < requests - 1 ==> !EndsAt(pages, k)
    ensures items == AllItems(pages[..requests])
  {
    items, requests := [], 0;
    var pageToken := "";
    while true
      invariant requests < |pages| && pageToken == Sent(pages, requests)
      invariant items == AllItems(pages[..requests])
      invariant forall k :: 0 <= k < requests ==> !EndsAt(pages, k)
      decreases |pages| - requests
    {
      var page := pages[requests];
      AllItemsStep(pages, requests);
      items := items + page.items;
      requests := requests + 1;
      if !page.hasMore || page.token == "" || pageToken == page.token {
        break;
      }
      pageToken := page.token;
    }
  }
}
