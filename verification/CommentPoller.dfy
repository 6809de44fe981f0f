/**
  The poller of `src/comment-suggestion-poller.mjs`: timer ticks, the `running` flag, and polls whose
  steps interleave with the timer, since every step of a poll awaits something.
 */
module CommentPoller {
  import opened CommentWatch

  datatype Watch = Watch(account: string, document: string, markSeen: bool)

  /** Where a poll in flight stands: before a watch, with its unseen comments listed, or about to mark them. */
  datatype Poll =
    | Ready(rest: seq<Watch>)
    | Listed(watch: Watch, unseen: seq<Comment>, rest: seq<Watch>)
    | Notified(watch: Watch, unseen: seq<Comment>, rest: seq<Watch>, card: nat)  // the card's place in `sent`

  /** A card that went out: its scope, whether its comments are or will be marked, and their fingerprints. */
  datatype Sent = Sent(key: string, marks: bool, fingerprints: set<string>)

  datatype State = State(items: Items, timer: bool, running: bool, polls: seq<Poll>, sent: seq<Sent>)

  datatype Event =
    | Tick(watches: seq<Watch>)       // the timer fires, or the first call at start
    | Stop
    | List(poll: nat, comments: seq<Comment>)  // the next watch's comments are listed and filtered
    | Skip(poll: nat)                 // no valid token, nothing new, no confirmation, or an error
    | Notify(poll: nat)               // the preview is made and its card delivered
    | Mark(poll: nat, now: string)    // the comments are marked seen, when the watch asks for it
    | MarkFails(poll: nat)            // marking raises instead, and the card stays unmarked
    | End(poll: nat)                  // no watch left: the finally block of the tick

  function WatchKey(w: Watch): string {
    ScopeKey(w.account, w.document)
  }

  predicate Enabled(s: State, ev: Event) {
    match ev
    case Tick(_) => s.timer
    case Stop => true
    case List(i, _) => i < |s.polls| && s.polls[i].Ready? && s.polls[i].rest != []
    case Skip(i) => i < |s.polls| && ((s.polls[i].Ready? && s.polls[i].rest != []) || s.polls[i].Listed?)
    case Notify(i) => i < |s.polls| && s.polls[i].Listed? && s.polls[i].unseen != []
    case Mark(i, now) => i < |s.polls| && s.polls[i].Notified? && now != ""
    case MarkFails(i) =>
      i < |s.polls| && s.polls[i].Notified? && s.polls[i].watch.markSeen && s.polls[i].card < |s.sent|
    case End(i) => i < |s.polls| && s.polls[i] == Ready([])
  }

  function Step(hash: string -> string, s: State, ev: Event): State
    requires Enabled(s, ev)
  {
    match ev
    case Tick(watches) => if s.running then s else s.(running := true, polls := s.polls + [Ready(watches)])
    case Stop => s.(timer := false)
    case List(i, comments) =>
      var w := s.polls[i].rest[0];
      s.(polls := s.polls[i := Listed(w, Unseen(hash, s.items, WatchKey(w), comments), s.polls[i].rest[1..])])
    case Skip(i) =>
      s.(polls := s.polls[i := Ready(if s.polls[i].Ready? then s.polls[i].rest[1..] else s.polls[i].rest)])
    case Notify(i) =>
      var p := s.polls[i];
      s.(polls := s.polls[i := Notified(p.watch, p.unseen, p.rest, |s.sent|)],
         sent := s.sent + [Sent(WatchKey(p.watch), p.watch.markSeen, Fingerprints(hash, p.unseen))])
    case Mark(i, now) =>
      var p := s.polls[i];
      var items := if p.watch.markSeen then Marked(hash, s.items, WatchKey(p.watch), p.unseen, now) else s.items;
      s.(items := items, polls := s.polls[i := Ready(p.rest)])
    case MarkFails(i) =>
      var p := s.polls[i];
      s.(polls := s.polls[i := Ready(p.rest)], sent := s.sent[p.card := s.sent[p.card].(marks := false)])
    case End(i) => s.(running := false, polls := s.polls[..i] + s.polls[i + 1..])
  }

  function Started(items: Items): State {
    State(items, true, false, [], [])
  }

  // ----- the invariant -----

  /** The flag is up exactly while one poll is in flight, and there is never a second one. */
  ghost predicate OneAtATime(s: State) {
    |s.polls| == (if s.running then 1 else 0)
  }

  /** A marked card's comments are in the store, or it is the last card and its poll is about to mark them. */
  ghost predicate Covered(hash: string -> string, s: State, k: nat)
    requires k < |s.sent|
  {
    s.sent[k].marks ==>
      || s.sent[k].fingerprints <= Seen(s.items, s.sent[k].key)
      || (s.polls != [] && s.polls[0].Notified? && k == s.polls[0].card == |s.sent| - 1
          && s.polls[0].watch.markSeen && WatchKey(s.polls[0].watch) == s.sent[k].key
          && s.sent[k].fingerprints == Fingerprints(hash, s.polls[0].unseen))
  }

  ghost predicate Disjoint(s: State, i: nat, j: nat)
    requires i < j < |s.sent|
  {
    s.sent[i].marks && s.sent[i].key == s.sent[j].key ==> s.sent[i].fingerprints !! s.sent[j].fingerprints
  }

  ghost predicate Inv(hash: string -> string, s: State) {
    && OneAtATime(s)
    && (forall k :: 0 <= k < |s.sent| ==> Covered(hash, s, k))
    && (forall i, j :: 0 <= i < j < |s.sent| ==> Disjoint(s, i, j))
    && (s.polls != [] && s.polls[0].Listed? ==>
          Fingerprints(hash, s.polls[0].unseen) !! Seen(s.items, WatchKey(s.polls[0].watch)))
  }

  lemma ListStep(hash: string -> string, s: State, i: nat, comments: seq<Comment>)
    requires Inv(hash, s) && Enabled(s, List(i, comments))
    ensures Inv(hash, Step(hash, s, List(i, comments)))
  {
    var s1 := Step(hash, s, List(i, comments));
    var w := s.polls[i].rest[0];
    UnseenMeaning(hash, s.items, WatchKey(w), comments);
    forall k | 0 <= k < |s1.sent|
      ensures Covered(hash, s1, k)
    {
      assert Covered(hash, s, k);
    }
    forall a, b | 0 <= a < b < |s1.sent|
      ensures Disjoint(s1, a, b)
    {
      assert Disjoint(s, a, b);
    }
  }

  /** A card that goes out now repeats nothing that a marked card of its scope carried. */
  lemma NotifyStep(hash: string -> string, s: State, i: nat)
    requires Inv(hash, s) && Enabled(s, Notify(i))
    ensures Inv(hash, Step(hash, s, Notify(i)))
  {
    var s1 := Step(hash, s, Notify(i));
    var n := |s.sent|;
    forall k | 0 <= k < |s1.sent|
      ensures Covered(hash, s1, k)
    {
      if k < n {
        assert Covered(hash, s, k);
      }
    }
    forall a, b | 0 <= a < b < |s1.sent|
      ensures Disjoint(s1, a, b)
    {
      assert Covered(hash, s, a);
      if b < n {
        assert Disjoint(s, a, b);
      }
    }
  }

  lemma MarkStep(hash: string -> string, s: State, i: nat, now: string)
    requires Inv(hash, s) && Enabled(s, Mark(i, now))
    ensures Inv(hash, Step(hash, s, Mark(i, now)))
  {
    var s1 := Step(hash, s, Mark(i, now));
    var p := s.polls[i];
    MarkedMeaning(hash, s.items, WatchKey(p.watch), p.unseen, now);
    assert forall key :: Seen(s.items, key) <= Seen(s1.items, key);
    forall k | 0 <= k < |s1.sent|
      ensures Covered(hash, s1, k)
    {
      assert Covered(hash, s, k);
    }
    forall a, b | 0 <= a < b < |s1.sent|
      ensures Disjoint(s1, a, b)
    {
      assert Disjoint(s, a, b);
    }
  }

  lemma MarkFailsStep(hash: string -> string, s: State, i: nat)
    requires Inv(hash, s) && Enabled(s, MarkFails(i))
    ensures Inv(hash, Step(hash, s, MarkFails(i)))
  {
    var s1 := Step(hash, s, MarkFails(i));
    forall k | 0 <= k < |s1.sent|
      ensures Covered(hash, s1, k)
    {
      assert Covered(hash, s, k);
    }
    forall a, b | 0 <= a < b < |s1.sent|
      ensures Disjoint(s1, a, b)
    {
      assert Disjoint(s, a, b);
    }
  }

  lemma OtherStep(hash: string -> string, s: State, ev: Event)
    requires Inv(hash, s) && Enabled(s, ev) && (ev.Tick? || ev.Stop? || ev.Skip? || ev.End?)
    ensures Inv(hash, Step(hash, s, ev))
  {
    var s1 := Step(hash, s, ev);
    forall k | 0 <= k < |s1.sent|
      ensures Covered(hash, s1, k)
    {
      assert Covered(hash, s, k);
    }
    forall a, b | 0 <= a < b < |s1.sent|
      ensures Disjoint(s1, a, b)
    {
      assert Disjoint(s, a, b);
    }
  }

  // ----- runs -----

  ghost predicate IsRun(hash: string -> string, states: seq<State>, evs: seq<Event>, items: Items) {
    && |states| == |evs| + 1 && states[0] == Started(items)
    && forall i :: 0 <= i < |evs| ==> Enabled(states[i], evs[i]) && states[i + 1] == Step(hash, states[i], evs[i])
  }

  /**
    Under any interleaving of ticks, stops and poll steps: at most one poll is in flight, and a comment
    version carried by a card is on no later card of the same scope, unless marking it failed.
   */
  lemma {:induction false} PollerRun(hash: string -> string, states: seq<State>, evs: seq<Event>, items: Items, n: nat)
    requires IsRun(hash, states, evs, items) && n <= |evs|
    ensures Inv(hash, states[n]) && |states[n].polls| <= 1
    ensures forall i, j :: 0 <= i < j < |states[n].sent| ==> Disjoint(states[n], i, j)
  {
    if n > 0 {
      PollerRun(hash, states, evs, items, n - 1);
      var s, ev := states[n - 1], evs[n - 1];
      assert Enabled(s, ev) && states[n - 1 + 1] == Step(hash, s, ev);
      match ev
      case List(i, comments) => ListStep(hash, s, i, comments);
      case Notify(i) => NotifyStep(hash, s, i);
      case Mark(i, now) => MarkStep(hash, s, i, now);
      case MarkFails(i) => MarkFailsStep(hash, s, i);
      case _ => OtherStep(hash, s, ev);
    }
  }

  /** The flag is what this rests on: two polls that have both listed a comment both send it. */
  lemma TwoPollsRepeat(hash: string -> string, items: Items, w: Watch, c: Comment)
    requires w.markSeen && hash(Payload(c)) !in Seen(items, WatchKey(w))
    ensures var s := State(items, true, true, [Ready([w]), Ready([w])], []);
            var s1 := Step(hash, s, List(0, [c]));
            var s2 := Step(hash, s1, List(1, [c]));
            && Enabled(s2, Notify(0))
            && var s3 := Step(hash, s2, Notify(0));
            && Enabled(s3, Notify(1))
            && !Disjoint(Step(hash, s3, Notify(1)), 0, 1)
  {
    assert Unseen(hash, items, WatchKey(w), [c]) == [c] by {
      assert [c][1..] == [];
    }
    assert hash(Payload(c)) in Fingerprints(hash, [c]);
  }

  /** The exception is real: after a failed marking the same watch is sent the same comments again. */
  lemma FailedMarkRepeats(hash: string -> string, items: Items, w: Watch, c: Comment)
    requires w.markSeen && hash(Payload(c)) !in Seen(items, WatchKey(w))
    ensures var s := State(items, true, true, [Ready([w, w])], []);
            var s1 := Step(hash, s, List(0, [c]));
            && Enabled(s1, Notify(0))
            && var s2 := Step(hash, s1, Notify(0));
            && Enabled(s2, MarkFails(0))
            && var s3 := Step(hash, Step(hash, s2, MarkFails(0)), List(0, [c]));
            && Enabled(s3, Notify(0))
            && var sent := Step(hash, s3, Notify(0)).sent;
            && |sent| == 2 && sent[0].fingerprints == sent[1].fingerprints == {hash(Payload(c))}
            && sent[0].key == sent[1].key
  {
    assert [w, w][1..] == [w];
    assert Unseen(hash, items, WatchKey(w), [c]) == [c] by {
      assert [c][1..] == [];
    }
    assert Fingerprints(hash, [c]) == {hash(Payload(c))};
  }

  // ----- one step of the machine and one call of the workflow -----

  /** A card call is the steps List, Notify and Mark in a row. */
  lemma CallIsSteps(hash: string -> string, items: Items, call: Call)
    requires call.now != "" && Result(hash, items, call).Card?
    ensures var w := Watch(call.account, call.document, call.markSeen);
            var s := State(items, true, true, [Ready([w])], []);
            var s1 := Step(hash, s, List(0, call.comments));
            && Enabled(s1, Notify(0))
            && var s2 := Step(hash, s1, Notify(0));
            && Enabled(s2, Mark(0, call.now))
            && Step(hash, s2, Mark(0, call.now)).items == Store(hash, items, call)
            && s2.sent == [Sent(Key(call), call.markSeen, Fingerprints(hash, Result(hash, items, call).comments))]
  {
  }

  // ----- the source's flags -----

  /** The variables of `startCommentSuggestionPoller`. */
  class Poller {
    var timer: bool
    var running: bool
    var inFlight: nat  // polls whose promise has not settled

    ghost predicate Valid()
      reads this
    {
      inFlight == if running then 1 else 0
    }

    constructor ()
      ensures Valid() && timer && running
    {
      timer, running, inFlight := true, true, 1;  // the interval, and the first tick
    }

    /** The synchronous part of `tick`: returns whether it started a poll. */
    method Tick() returns (started: bool)
      requires Valid()
      modifies this
      ensures Valid() && timer == old(timer) && running
      ensures started <==> old(inFlight) == 0
    {
      if running {
        return false;
      }
      running := true;
      inFlight := inFlight + 1;
      started := true;
    }

    /** The `finally` block, when a poll has completed or failed. */
    method Settle()
      requires Valid() && inFlight > 0
      modifies this
      ensures Valid() && timer == old(timer) && inFlight == 0
    {
      inFlight := inFlight - 1;
      running := false;
    }

    method Stop()
      requires Valid()
      modifies this`timer
      ensures Valid() && !timer
    {
      if timer {
        timer := false;
      }
    }
  }

  datatype PollResult = PollResult(account: string, document: string, ok: bool, newComments: nat)

  /** One watch of a poll: whether a token was found, and the call it leads to. */
  datatype Visit = Visit(hasToken: bool, call: Call)

  function Calls(visits: seq<Visit>): seq<Call> {
    if visits == [] then []
    else Calls(visits[..|visits| - 1])
         + (if visits[|visits| - 1].hasToken then [visits[|visits| - 1].call] else [])
  }

  function Report(hash: string -> string, items: Items, v: Visit): PollResult {
    var r := Result(hash, items, v.call);
    PollResult(v.call.account, v.call.document, v.hasToken && !r.Raised? && !r.MarkRaised?,
               if v.hasToken && r.Card? then |r.comments| else 0)
  }

  /**
    What a watch reports: failure without a token, and when with something new the preview, a needed reply or
    the marking raises; otherwise success, with the number of comments on the card, if one went out.
   */
  lemma ReportMeaning(hash: string -> string, items: Items, v: Visit)
    ensures var r, call := Report(hash, items, v), v.call;
            && (r.ok <==>
                  && v.hasToken
                  && (HasNew(hash, items, call) ==>
                        && call.preview != PreviewRaised
                        && (call.preview == Confirmed ==> Replies(call) && (call.markSeen ==> call.markOk))))
            && (r.newComments > 0 ==> r.ok && Sends(Result(hash, items, call)))
            && (r.ok && Sends(Result(hash, items, call)) ==> r.newComments == |Result(hash, items, call).comments|)
            && (r.newComments == 0 <==> !(r.ok && HasNew(hash, items, call) && call.preview == Confirmed))
            && r.account == call.account && r.document == call.document
  {
    ResultMeaning(hash, items, v.call);
    var r := Result(hash, items, v.call);
    if Sends(r) {
      var c :| c in v.call.comments && !Stored(items, Key(v.call), hash(Payload(c)));
      assert c in r.comments;
    }
    hide Result, Payload, Replies, Stored;
  }

  /** `runCommentSuggestionPollOnce`: one result a watch, in order; a watch that raises does not stop the others. */
  method PollOnce(store: WatchStore, visits: seq<Visit>) returns (results: seq<PollResult>)
    modifies store
    ensures |results| == |visits|
    ensures forall i :: 0 <= i < |visits| ==>
              results[i] == Report(store.hash, After(store.hash, old(store.items), Calls(visits[..i])), visits[i])
    ensures store.items == After(store.hash, old(store.items), Calls(visits))
  {
    hide Result;
    hide Store;
    hide After;
    hide Calls;
    results := [];
    assert After(store.hash, store.items, Calls(visits[..0])) == store.items by {
      NoCalls(store.hash, store.items, visits);
    }
    for i := 0 to |visits|
      invariant |results| == i
      invariant store.items == After(store.hash, old(store.items), Calls(visits[..i]))
      invariant forall k :: 0 <= k < i ==>
                  results[k] == Report(store.hash, After(store.hash, old(store.items), Calls(visits[..k])), visits[k])
    {
      CallsStep(store.hash, old(store.items), visits, i);
      var v := visits[i];
      if !v.hasToken {
        results := results + [PollResult(v.call.account, v.call.document, false, 0)];
        continue;
      }
      var r := store.GenerateCard(v.call);
      results := results + [PollResult(v.call.account, v.call.document, !r.Raised? && !r.MarkRaised?,
                                          if r.Card? then |r.comments| else 0)];
    }
    assert visits[..|visits|] == visits;
  }

  lemma NoCalls(hash: string -> string, items: Items, visits: seq<Visit>)
    ensures After(hash, items, Calls(visits[..0])) == items
  {
  }

  lemma CallsStep(hash: string -> string, items: Items, visits: seq<Visit>, i: nat)
    requires i < |visits|
    ensures var before := After(hash, items, Calls(visits[..i]));
            After(hash, items, Calls(visits[..i + 1]))
            == if visits[i].hasToken then Store(hash, before, visits[i].call) else before
  {
    assert visits[..i + 1][..i] == visits[..i];
    var calls := Calls(visits[..i]);
    assert (calls + [visits[i].call])[..|calls|] == calls;
    assert calls + [] == calls;
  }
}
