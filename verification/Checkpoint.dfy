/**
  The workflow checkpoints of `src/agent-workflow-state.mjs`: what a run of partial updates leaves is what
  one update with everything would, exactly as long as normalising is stable on the items.
 */
module Checkpoint {
  import opened Basics
  import opened JsText
  import opened LineBreaks
  import opened TextLists

  const Limit: nat := 8

  type Meta = map<string, string>

  datatype Record = Record(
    goal: string, completed: seq<string>, pending: seq<string>, constraints: seq<string>,
    facts: seq<string>, risks: seq<string>, updatedAt: string, meta: Meta)

  const Blank := Record("", [], [], [], [], [], "", map[])

  /** A patch: the fields a caller gives; a list field that is no array counts as not given. */
  datatype Patch = Patch(
    goal: Option<string>, completed: Option<seq<string>>, pending: Option<seq<string>>,
    constraints: Option<seq<string>>, facts: Option<seq<string>>, risks: Option<seq<string>>, meta: Meta)

  function OrElse<T>(o: Option<T>, default: T): T {
    if o.Some? then o.value else default
  }

  function NormalizeRecord(c: Record, now: string): Record {
    Record(NormalizeText(c.goal), FirstDistinct(c.completed, Limit), FirstDistinct(c.pending, Limit),
           FirstDistinct(c.constraints, Limit), FirstDistinct(c.facts, Limit), FirstDistinct(c.risks, Limit),
           if c.updatedAt == "" then now else c.updatedAt, c.meta)
  }

  type Checkpoints = map<string, Record>

  function Lookup(store: Checkpoints, key: string): Record {
    if key in store then store[key] else Blank
  }

  function Merge(current: Record, patch: Patch, now: string): Record {
    NormalizeRecord(
      Record(OrElse(patch.goal, current.goal),
             current.completed + OrElse(patch.completed, []),
             OrElse(patch.pending, []),
             current.constraints + OrElse(patch.constraints, []),
             current.facts + OrElse(patch.facts, []),
             OrElse(patch.risks, current.risks),
             now,
             current.meta + patch.meta),
      now)
  }

  datatype Update = Update(key: string, patch: Patch, now: string)

  /** The store after one update; a blank key is refused. */
  function Apply(store: Checkpoints, u: Update): Checkpoints {
    var key := NormalizeText(u.key);
    if key == "" then store
    else store[key := Merge(NormalizeRecord(Lookup(store, key), u.now), u.patch, u.now)]
  }

  function After(store: Checkpoints, us: seq<Update>): Checkpoints {
    if us == [] then store else Apply(After(store, us[..|us| - 1]), us[|us| - 1])
  }

  /** What a reader of a key gets: its record, normalised again. */
  function Read(store: Checkpoints, key: string, now: string): Option<Record> {
    var k := NormalizeText(key);
    if k == "" || k !in store then None else Some(NormalizeRecord(store[k], now))
  }

  class CheckpointStore {
    var checkpoints: Checkpoints

    constructor (checkpoints: Checkpoints)
      ensures this.checkpoints == checkpoints
    {
      this.checkpoints := checkpoints;
    }

    /** `updateWorkflowCheckpoint`. */
    method UpdateCheckpoint(u: Update) returns (r: Option<Record>)
      modifies this
      ensures checkpoints == Apply(old(checkpoints), u)
      ensures r == if NormalizeText(u.key) == "" then None else Some(checkpoints[NormalizeText(u.key)])
    {
      var key := NormalizeText(u.key);
      if key == "" {
        return None;
      }
      var current := NormalizeRecord(Lookup(checkpoints, key), u.now);
      var next := Merge(current, u.patch, u.now);
      checkpoints := checkpoints[key := next];
      r := Some(next);
    }

    /** `getWorkflowCheckpoint`. */
    method GetCheckpoint(key: string, now: string) returns (r: Option<Record>)
      ensures r == Read(checkpoints, key, now)
    {
      var k := NormalizeText(key);
      if k == "" || k !in checkpoints {
        return None;
      }
      r := Some(NormalizeRecord(checkpoints[k], now));
    }
  }

  // ----- the accumulating lists -----

  datatype Field = Completed | Constraints | Facts

  function ListOf(c: Record, f: Field): seq<string> {
    match f
    case Completed => c.completed
    case Constraints => c.constraints
    case Facts => c.facts
  }

  function GivenOf(p: Patch, f: Field): seq<string> {
    match f
    case Completed => OrElse(p.completed, [])
    case Constraints => OrElse(p.constraints, [])
    case Facts => OrElse(p.facts, [])
  }

  /** All that a run gave for one field of one key, in order. */
  function AllGiven(us: seq<Update>, key: string, f: Field): seq<string> {
    if us == [] then []
    else
      AllGiven(us[..|us| - 1], key, f)
      + (if NormalizeText(us[|us| - 1].key) == key then GivenOf(us[|us| - 1].patch, f) else [])
  }

  ghost predicate Updated(us: seq<Update>, key: string) {
    exists i :: 0 <= i < |us| && NormalizeText(us[i].key) == key
  }

  lemma MergeList(store: Checkpoints, u: Update, f: Field)
    requires NormalizeText(u.key) != ""
    ensures var key := NormalizeText(u.key);
            var kept := FirstDistinct(ListOf(Lookup(store, key), f), Limit);
            ListOf(Lookup(Apply(store, u), key), f) == FirstDistinct(kept + GivenOf(u.patch, f), Limit)
  {
    hide NormalizeText;
    hide FirstDistinct;
  }

  lemma OtherKey(store: Checkpoints, u: Update, key: string)
    requires NormalizeText(u.key) != key
    ensures Lookup(Apply(store, u), key) == Lookup(store, key)
            && (key in Apply(store, u) <==> key in store)
  {
    hide NormalizeText;
    hide Merge;
    hide NormalizeRecord;
  }

  lemma AllGivenSnoc(us: seq<Update>, key: string, f: Field)
    requires us != []
    ensures AllGiven(us, key, f) == AllGiven(us[..|us| - 1], key, f)
              + (if NormalizeText(us[|us| - 1].key) == key then GivenOf(us[|us| - 1].patch, f) else [])
  {
  }

  /**
    Incremental equals batch: after any run of updates, each accumulating list of a key is the first eight
    distinct non-blank items of what was there and all that was given, in order.
   */
  lemma {:induction false} IncrementalIsBatch(store: Checkpoints, us: seq<Update>, key: string, f: Field)
    requires key != "" && AllStable(ListOf(Lookup(store, key), f) + AllGiven(us, key, f))
    ensures FirstDistinct(ListOf(Lookup(After(store, us), key), f), Limit)
         == FirstDistinct(ListOf(Lookup(store, key), f) + AllGiven(us, key, f), Limit)
    ensures var batch := FirstDistinct(ListOf(Lookup(store, key), f) + AllGiven(us, key, f), Limit);
            Updated(us, key) ==> ListOf(Lookup(After(store, us), key), f) == batch
  {
    hide NormalizeText;
    hide FirstDistinct;
    hide Apply;
    var first := ListOf(Lookup(store, key), f);
    if us == [] {
      assert first + AllGiven(us, key, f) == first;
    } else {
      var before, u := us[..|us| - 1], us[|us| - 1];
      AllGivenSnoc(us, key, f);
      var given, more := AllGiven(before, key, f), GivenOf(u.patch, f);
      StablePart(first + given, AllGiven(us, key, f)[|given|..]);
      assert first + AllGiven(us, key, f) == first + given + AllGiven(us, key, f)[|given|..];
      IncrementalIsBatch(store, before, key, f);
      if NormalizeText(u.key) == key {
        MergeList(After(store, before), u, f);
        FirstDistinctMore(first + given, more, Limit);
        assert first + AllGiven(us, key, f) == first + given + more;
        FirstDistinctMore(first + given + more, [], Limit);
      } else {
        OtherKey(After(store, before), u, key);
        assert first + AllGiven(us, key, f) == first + given;
        EarlierUpdate(us, key);
      }
    }
  }

  lemma EarlierUpdate(us: seq<Update>, key: string)
    requires us != [] && NormalizeText(us[|us| - 1].key) != key
    ensures Updated(us, key) ==> Updated(us[..|us| - 1], key)
  {
    hide NormalizeText;
    if Updated(us, key) {
      var i :| 0 <= i < |us| && NormalizeText(us[i].key) == key;
      assert us[..|us| - 1][i] == us[i];
    }
  }

  lemma StablePart(a: seq<string>, b: seq<string>)
    ensures AllStable(a + b) ==> AllStable(a) && AllStable(b)
  {
    hide Stable;
    if AllStable(a + b) {
      assert forall i :: 0 <= i < |a| ==> a[i] == (a + b)[i];
      assert forall i :: 0 <= i < |b| ==> b[i] == (a + b)[|a| + i];
    }
  }

  /** So what was recorded first stays first: every earlier list is a prefix of every later one. */
  lemma EarlierIsPrefix(store: Checkpoints, us: seq<Update>, n: nat, key: string, f: Field)
    requires key != "" && n <= |us| && AllStable(ListOf(Lookup(store, key), f) + AllGiven(us, key, f))
    requires Updated(us[..n], key)
    ensures ListOf(Lookup(After(store, us[..n]), key), f) <= ListOf(Lookup(After(store, us), key), f)
  {
    hide NormalizeText;
    var first := ListOf(Lookup(store, key), f);
    AllGivenPrefix(us, n, key, f);
    var given, more := AllGiven(us[..n], key, f), AllGiven(us, key, f)[|AllGiven(us[..n], key, f)|..];
    assert first + AllGiven(us, key, f) == first + given + more;
    StablePart(first + given, more);
    var i :| 0 <= i < n && NormalizeText(us[..n][i].key) == key;
    assert us[..n][i] == us[i];
    IncrementalIsBatch(store, us[..n], key, f);
    IncrementalIsBatch(store, us, key, f);
    FirstDistinctMore(first + given, more, Limit);
  }

  lemma {:induction false} AllGivenPrefix(us: seq<Update>, n: nat, key: string, f: Field)
    requires n <= |us|
    ensures AllGiven(us[..n], key, f) <= AllGiven(us, key, f)
  {
    hide NormalizeText;
    if n < |us| {
      AllGivenPrefix(us[..|us| - 1], n, key, f);
      assert us[..|us| - 1][..n] == us[..n];
      AllGivenSnoc(us, key, f);
    } else {
      assert us[..n] == us;
    }
  }

  /** The last patch that a run gave for a key. */
  function LastPatch(us: seq<Update>, key: string): Option<Patch> {
    if us == [] then None
    else if NormalizeText(us[|us| - 1].key) == key then Some(us[|us| - 1].patch)
    else LastPatch(us[..|us| - 1], key)
  }

  /** After any run, pending is what the last patch to the key gave; a key without updates keeps its record. */
  lemma {:induction false} PendingIsLast(store: Checkpoints, us: seq<Update>, key: string)
    requires key != ""
    ensures Updated(us, key) <==> LastPatch(us, key).Some?
    ensures Updated(us, key) ==>
              && key in After(store, us)
              && After(store, us)[key].pending == FirstDistinct(OrElse(LastPatch(us, key).value.pending, []), Limit)
    ensures !Updated(us, key) ==>
              Lookup(After(store, us), key) == Lookup(store, key) && (key in After(store, us) <==> key in store)
  {
    hide NormalizeText;
    hide FirstDistinct;
    hide Apply;
    if us != [] {
      var before, u := us[..|us| - 1], us[|us| - 1];
      PendingIsLast(store, before, key);
      assert NormalizeText(u.key) == key ==> Updated(us, key);
      if NormalizeText(u.key) == key {
        PendingStep(After(store, before), u);
      } else {
        OtherKey(After(store, before), u, key);
        EarlierUpdate(us, key);
        LaterUpdate(us, key);
      }
    }
  }

  lemma PendingStep(store: Checkpoints, u: Update)
    requires NormalizeText(u.key) != ""
    ensures var key := NormalizeText(u.key);
            key in Apply(store, u) && Apply(store, u)[key].pending == FirstDistinct(OrElse(u.patch.pending, []), Limit)
  {
    hide NormalizeText;
    hide FirstDistinct;
  }

  lemma LaterUpdate(us: seq<Update>, key: string)
    requires us != []
    ensures Updated(us[..|us| - 1], key) ==> Updated(us, key)
  {
    hide NormalizeText;
    var before := us[..|us| - 1];
    if Updated(before, key) {
      var i :| 0 <= i < |before| && NormalizeText(before[i].key) == key;
      assert before[i] == us[i];
    }
  }

  /** A reader of a blank key, or of one that no update has named, gets nothing; of any other key a record. */
  lemma ReadMeaning(us: seq<Update>, key: string, now: string)
    ensures var k := NormalizeText(key);
            Read(After(map[], us), key, now).Some? <==> k != "" && Updated(us, k)
  {
    hide NormalizeText, After, NormalizeRecord;
    var k := NormalizeText(key);
    if k != "" {
      PendingIsLast(map[], us, k);
    }
  }

  // ----- the fields that do not accumulate -----

  /** The last goal and risks that a run gave for a key, or what was there. */
  function LastGoal(us: seq<Update>, key: string, start: string): string {
    if us == [] then start
    else
      var u := us[|us| - 1];
      if NormalizeText(u.key) == key && u.patch.goal.Some? then u.patch.goal.value
      else LastGoal(us[..|us| - 1], key, start)
  }

  function LastRisks(us: seq<Update>, key: string, start: seq<string>): seq<string> {
    if us == [] then start
    else
      var u := us[|us| - 1];
      if NormalizeText(u.key) == key && u.patch.risks.Some? then u.patch.risks.value
      else LastRisks(us[..|us| - 1], key, start)
  }

  /** What was there, overlaid with the meta of each patch in turn. */
  function MetaOver(us: seq<Update>, key: string, start: Meta): Meta {
    if us == [] then start
    else
      var u, m := us[|us| - 1], MetaOver(us[..|us| - 1], key, start);
      if NormalizeText(u.key) == key then m + u.patch.meta else m
  }

  /** After any run the goal is the last one given, normalised; once it is stable it stays as it is. */
  lemma {:induction false} GoalIsLast(store: Checkpoints, us: seq<Update>, key: string)
    requires key != "" && Stable(LastGoal(us, key, Lookup(store, key).goal))
    ensures var last := LastGoal(us, key, Lookup(store, key).goal);
            Lookup(After(store, us), key).goal
            == if Updated(us, key) then NormalizeText(last) else Lookup(store, key).goal
  {
    hide NormalizeText, Apply, LeavesCrLf;
    var last := LastGoal(us, key, Lookup(store, key).goal);
    IdempotentIff(last);
    if us != [] {
      var before, u := us[..|us| - 1], us[|us| - 1];
      assert NormalizeText(u.key) == key ==> Updated(us, key);
      if NormalizeText(u.key) == key {
        if u.patch.goal.None? {
          GoalIsLast(store, before, key);
          NotUpdatedGoal(before, key, Lookup(store, key).goal);
        }
        MergeRest(After(store, before), u);
      } else {
        GoalIsLast(store, before, key);
        OtherKey(After(store, before), u, key);
        EarlierUpdate(us, key);
        LaterUpdate(us, key);
      }
    }
  }

  lemma {:induction false} NotUpdatedGoal(us: seq<Update>, key: string, start: string)
    ensures !Updated(us, key) ==> LastGoal(us, key, start) == start
  {
    hide NormalizeText;
    if us != [] {
      NotUpdatedGoal(us[..|us| - 1], key, start);
      LaterUpdate(us, key);
    }
  }

  lemma MergeRest(store: Checkpoints, u: Update)
    requires NormalizeText(u.key) != ""
    ensures var key := NormalizeText(u.key);
            var old1, new1 := Lookup(store, key), Lookup(Apply(store, u), key);
            && new1.goal == (if u.patch.goal.Some? then NormalizeText(u.patch.goal.value)
                             else NormalizeText(NormalizeText(old1.goal)))
            && new1.risks == (if u.patch.risks.Some? then FirstDistinct(u.patch.risks.value, Limit)
                              else FirstDistinct(FirstDistinct(old1.risks, Limit), Limit))
            && new1.meta == old1.meta + u.patch.meta && new1.updatedAt == u.now
  {
    hide NormalizeText, FirstDistinct;
  }

  /** The risks are those of the last list given, cut down like the other lists. */
  lemma {:induction false} RisksAreLast(store: Checkpoints, us: seq<Update>, key: string)
    requires key != "" && AllStable(LastRisks(us, key, Lookup(store, key).risks))
    ensures var last := LastRisks(us, key, Lookup(store, key).risks);
            Lookup(After(store, us), key).risks
            == if Updated(us, key) then FirstDistinct(last, Limit) else Lookup(store, key).risks
  {
    hide NormalizeText, Apply, Stable, FirstDistinct;
    var last := LastRisks(us, key, Lookup(store, key).risks);
    if us != [] {
      var before, u := us[..|us| - 1], us[|us| - 1];
      assert NormalizeText(u.key) == key ==> Updated(us, key);
      if NormalizeText(u.key) == key {
        if u.patch.risks.None? {
          RisksAreLast(store, before, key);
          NotUpdatedRisks(before, key, Lookup(store, key).risks);
          FirstDistinctMore(last, [], Limit);
          assert FirstDistinct(last, Limit) + [] == FirstDistinct(last, Limit) && last + [] == last;
        }
        MergeRest(After(store, before), u);
      } else {
        RisksAreLast(store, before, key);
        OtherKey(After(store, before), u, key);
        EarlierUpdate(us, key);
        LaterUpdate(us, key);
      }
    }
  }

  lemma {:induction false} NotUpdatedRisks(us: seq<Update>, key: string, start: seq<string>)
    ensures !Updated(us, key) ==> LastRisks(us, key, start) == start
  {
    hide NormalizeText;
    if us != [] {
      NotUpdatedRisks(us[..|us| - 1], key, start);
      LaterUpdate(us, key);
    }
  }

  /** The meta is the overlay of all that was given, and the time that of the last update. */
  lemma {:induction false} MetaIsOverlay(store: Checkpoints, us: seq<Update>, key: string)
    requires key != ""
    ensures Lookup(After(store, us), key).meta == MetaOver(us, key, Lookup(store, key).meta)
    ensures us != [] && NormalizeText(us[|us| - 1].key) == key ==>
              Lookup(After(store, us), key).updatedAt == us[|us| - 1].now
  {
    hide NormalizeText, Apply;
    if us != [] {
      var before, u := us[..|us| - 1], us[|us| - 1];
      MetaIsOverlay(store, before, key);
      if NormalizeText(u.key) == key {
        MergeRest(After(store, before), u);
      } else {
        OtherKey(After(store, before), u, key);
      }
    }
  }

  // ----- what a reader gets -----

  /** No text of the record has a CR LF pair in it. */
  ghost predicate Clean(c: Record) {
    NoCrLf(c.goal) && CleanList(c.completed) && CleanList(c.pending) && CleanList(c.constraints)
    && CleanList(c.facts) && CleanList(c.risks)
  }

  ghost predicate CleanList(xs: seq<string>) {
    forall i :: 0 <= i < |xs| ==> NoCrLf(xs[i])
  }

  /** A reader gets exactly what the update stored if and only if no stored text has a CR LF pair in it. */
  lemma ReadYourWrite(store: Checkpoints, u: Update, key: string, now: string)
    requires NormalizeText(key) == NormalizeText(u.key) != "" && u.now != ""
    ensures var after, k := Apply(store, u), NormalizeText(u.key);
            k in after && (Read(after, key, now) == Some(after[k]) <==> Clean(after[k]))
  {
    hide NormalizeText;
    hide FirstDistinct;
    hide NoCrLf;
    var current, p := NormalizeRecord(Lookup(store, NormalizeText(u.key)), u.now), u.patch;
    NormalizeTwice(OrElse(p.goal, current.goal));
    ListTwice(current.completed + OrElse(p.completed, []));
    ListTwice(OrElse(p.pending, []));
    ListTwice(current.constraints + OrElse(p.constraints, []));
    ListTwice(current.facts + OrElse(p.facts, []));
    ListTwice(OrElse(p.risks, current.risks));
  }

  /** Cutting a list down to distinct items again leaves it alone exactly when its items are clean. */
  lemma ListTwice(items: seq<string>)
    ensures var r := FirstDistinct(items, Limit); FirstDistinct(r, Limit) == r <==> CleanList(r)
  {
    hide NormalizeText;
    var r := FirstDistinct(items, Limit);
    FirstDistinctItems(items);
    NormalizedLength(r);
    DedupLength(Normalized(r));
    if CleanList(r) {
      SettledStays(r);
      DistinctStays(r);
    }
  }

  /** Its items are distinct normalised texts, which stay as they are exactly when they are clean. */
  lemma FirstDistinctItems(items: seq<string>)
    ensures var r := FirstDistinct(items, Limit);
            && |r| <= Limit
            && (forall i, j :: 0 <= i < j < |r| ==> r[i] != r[j])
            && forall i :: 0 <= i < |r| ==> r[i] != "" && (NormalizeText(r[i]) == r[i] <==> NoCrLf(r[i]))
  {
    hide NormalizeText;
    hide NoCrLf;
    var n, r := Normalized(items), FirstDistinct(items, Limit);
    DedupMeaning(n);
    forall i | 0 <= i < |r|
      ensures r[i] != "" && (NormalizeText(r[i]) == r[i] <==> NoCrLf(r[i]))
    {
      assert r[i] == Dedup(n)[i] && Dedup(n)[i] in n;
      NormalizedItem(items, r[i]);
    }
  }

  lemma {:induction false} NormalizedItem(items: seq<string>, x: string)
    requires x in Normalized(items)
    ensures x != "" && (NormalizeText(x) == x <==> NoCrLf(x))
  {
    hide NormalizeText;
    hide NoCrLf;
    var last := items[|items| - 1];
    if x == NormalizeText(last) {
      NormalizeTwice(last);
    }
    if x in Normalized(items[..|items| - 1]) {
      NormalizedItem(items[..|items| - 1], x);
    }
  }

  lemma {:induction false} NormalizedLength(items: seq<string>)
    ensures |Normalized(items)| <= |items|
    ensures |Normalized(items)| == |items| ==>
              forall i :: 0 <= i < |items| ==> Normalized(items)[i] == NormalizeText(items[i])
  {
    hide NormalizeText;
    if items != [] {
      NormalizedLength(items[..|items| - 1]);
    }
  }

  lemma {:induction false} DedupLength(xs: seq<string>)
    ensures |Dedup(xs)| <= |xs|
    ensures |Dedup(xs)| == |xs| ==> Dedup(xs) == xs
  {
    if xs != [] {
      DedupLength(xs[..|xs| - 1]);
      assert xs == xs[..|xs| - 1] + [xs[|xs| - 1]];
    }
  }

  /** After any run of stable items, what is read of a key is the batch of everything the run gave. */
  lemma ReadIsBatch(store: Checkpoints, us: seq<Update>, key: string, now: string, f: Field)
    requires var k := NormalizeText(key);
             k != "" && Updated(us, k) && AllStable(ListOf(Lookup(store, k), f) + AllGiven(us, k, f))
    ensures var k, r := NormalizeText(key), Read(After(store, us), key, now);
            r.Some? && ListOf(r.value, f) == FirstDistinct(ListOf(Lookup(store, k), f) + AllGiven(us, k, f), 8)
  {
    hide NormalizeText;
    hide FirstDistinct;
    hide After;
    PendingIsLast(store, us, NormalizeText(key));
    IncrementalIsBatch(store, us, NormalizeText(key), f);
  }

  // ----- where normalising is not stable -----

  function JustCompleted(items: seq<string>): Patch {
    Patch(None, Some(items), None, None, None, None, map[])
  }

  /**
    The condition is exact: a fresh key that gets one item, and then an update without any, keeps the item
    as first recorded if and only if the item is stable. "a\r\r\nb" is not (JsText.NotIdempotent).
   */
  lemma KeptIffStable(key: string, item: string, now: string)
    requires NormalizeText(key) != "" && NormalizeText(item) != ""
    ensures var us := [Update(key, JustCompleted([item]), now), Update(key, JustCompleted([]), now)];
            Lookup(After(map[], us), NormalizeText(key)).completed == FirstDistinct([item], Limit) <==> Stable(item)
  {
    var k := NormalizeText(key);
    var u1, u2 := Update(key, JustCompleted([item]), now), Update(key, JustCompleted([]), now);
    assert [u1, u2][..1] == [u1] && [u1][..0] == [];
    assert After(map[], [u1]) == Apply(map[], u1);
    MergeList(map[], u1, Completed);
    MergeList(After(map[], [u1]), u2, Completed);
    var n1 := NormalizeText(item);
    var n2 := NormalizeText(n1);
    var n3 := NormalizeText(n2);
    FirstOfOne(item);
    FirstOfNone();
    assert [] + [item] == [item];
    assert Lookup(Apply(map[], u1), k).completed == [n1];
    NormalizeKeepsSomething(item);
    NormalizeKeepsSomething(n1);
    FirstOfOne(n1);
    FirstOfOne(n2);
    assert [n2] + [] == [n2];
    assert Lookup(After(map[], [u1, u2]), k).completed == [n3];
    Shrinking(item);
  }

  /** After every run that gives the key only these items, the list is the batch of them. */
  ghost predicate AlwaysBatch(items: set<string>, key: string, f: Field) {
    forall us: seq<Update> :: Gives(us, key, f, items) && Updated(us, key) ==>
      ListOf(Lookup(After(map[], us), key), f) == FirstDistinct(AllGiven(us, key, f), Limit)
  }

  ghost predicate Gives(us: seq<Update>, key: string, f: Field, items: set<string>) {
    forall x :: x in AllGiven(us, key, f) ==> x in items
  }

  /** And it is exact over runs: incremental equals batch on every run of some items if and only if all are stable. */
  lemma BatchIffStable(items: set<string>, name: string)
    requires NormalizeText(name) != ""
    ensures (forall f :: AlwaysBatch(items, NormalizeText(name), f)) <==> (forall x :: x in items ==> Stable(x))
  {
    var key := NormalizeText(name);
    hide NormalizeText, FirstDistinct, Stable, After, Lookup, AllGiven;
    if forall x :: x in items ==> Stable(x) {
      forall f
        ensures AlwaysBatch(items, key, f)
      {
        forall us: seq<Update> | Gives(us, key, f, items) && Updated(us, key)
          ensures ListOf(Lookup(After(map[], us), key), f) == FirstDistinct(AllGiven(us, key, f), Limit)
        {
          NothingYet(key, f);
          assert [] + AllGiven(us, key, f) == AllGiven(us, key, f);
          IncrementalIsBatch(map[], us, key, f);
        }
      }
    }
    if x :| x in items && !Stable(x) {
      UnstableShows(x);
      KeptIffStable(name, x, "");
      GivenTwice(name, x);
      var us := [Update(name, JustCompleted([x]), ""), Update(name, JustCompleted([]), "")];
      assert NormalizeText(us[0].key) == key;
      assert !AlwaysBatch(items, key, Completed);
    }
  }

  lemma NothingYet(key: string, f: Field)
    ensures ListOf(Lookup(map[], key), f) == []
  {
  }

  lemma UnstableShows(item: string)
    requires !Stable(item)
    ensures NormalizeText(item) != ""
  {
    LeavesIff(item);
    hide NormalizeText;
    assert NoCrLf("");
  }

  lemma GivenTwice(name: string, item: string)
    ensures var us := [Update(name, JustCompleted([item]), ""), Update(name, JustCompleted([]), "")];
            AllGiven(us, NormalizeText(name), Completed) == [item]
  {
    hide NormalizeText;
    var u1, u2 := Update(name, JustCompleted([item]), ""), Update(name, JustCompleted([]), "");
    assert [u1, u2][..1] == [u1] && [u1][..0] == [];
    AllGivenSnoc([u1, u2], NormalizeText(name), Completed);
    AllGivenSnoc([u1], NormalizeText(name), Completed);
  }

  lemma FirstOfNone()
    ensures FirstDistinct([], Limit) == []
  {
  }

  lemma FirstOfOne(item: string)
    requires NormalizeText(item) != ""
    ensures FirstDistinct([item], Limit) == [NormalizeText(item)]
  {
    hide NormalizeText;
    assert [] + [item] == [item];
    NormalizedSnoc([], item);
    DedupSnoc([], NormalizeText(item));
    assert [] + [NormalizeText(item)] == [NormalizeText(item)];
  }

  /** An unstable text shrinks when normalised again, and never grows back. */
  lemma Shrinking(item: string)
    ensures var n := NormalizeText(item);
            NormalizeText(NormalizeText(n)) == n <==> Stable(item)
  {
    var n := NormalizeText(item);
    LeavesIff(item);
    NormalizeTwice(item);
    NormalizeIsNormal(n);
    NormalizeIsNormal(NormalizeText(n));
    if !Stable(item) {
      JoinBreaksMeaning(n);
    }
  }
}
