/**
  The bounded-parallel scheduler of `scripts/stress-executive-concurrency.mjs`: `schedule` and the
  `then` and `finally` callbacks of each round, in every order in which rounds may settle.

  A round's promise is taken to fulfil, with a result that is ok or not.
 */
module Scheduler {
  import opened Basics

  datatype Args = Args(rounds: int, parallel: int)

  function Distance(a: int, b: int): nat {
    if a < b then b - a else a - b
  }

  /** The clamps at the end of `parseArgs`. */
  function Clamp(raw: Args): (args: Args)
    ensures 1 <= args.parallel <= args.rounds
    ensures 1 <= raw.parallel <= raw.rounds ==> args == raw
    ensures args.rounds == if raw.rounds >= 1 then raw.rounds else 1
    ensures forall p: int :: 1 <= p <= args.rounds ==>
              Distance(args.parallel, raw.parallel) <= Distance(p, raw.parallel)
  {
    var rounds := Max(1, raw.rounds);
    Args(rounds, Max(1, Min(raw.parallel, rounds)))
  }

  /** The variables of `main`, and what has become of each round. */
  datatype State = State(
    nextRound: int,
    running: int,
    failures: seq<int>,  // rounds whose result was not ok, in the order they were pushed
    resolves: nat,       // how often the surrounding promise was resolved
    started: seq<int>,   // rounds in the order they were started
    inFlight: set<int>,  // started, promise not settled
    settled: set<int>,   // `then` has run, `finally` has not
    finished: set<int>,  // `finally` has run
    results: map<int, bool>)

  const Idle := State(1, 0, [], 0, [], {}, {}, {}, map[])

  /** One pass of the loop of `schedule`: start the next round. */
  function Start(s: State): State {
    s.(nextRound := s.nextRound + 1, running := s.running + 1,
       started := s.started + [s.nextRound], inFlight := s.inFlight + {s.nextRound})
  }

  predicate CanStart(args: Args, s: State) {
    s.running < args.parallel && s.nextRound <= args.rounds
  }

  /** `schedule()`: start rounds while there is room and there are rounds. */
  function Schedule(args: Args, s: State): State
    decreases args.rounds - s.nextRound + 1
  {
    if CanStart(args, s) then Schedule(args, Start(s)) else s
  }

  /** The `then` callback of round `r`. */
  function Then(s: State, r: int, ok: bool): State {
    s.(failures := if ok then s.failures else s.failures + [r],
       inFlight := s.inFlight - {r}, settled := s.settled + {r}, results := s.results[r := ok])
  }

  /** The `finally` callback of round `r`. */
  function Finally(args: Args, s: State, r: int): State {
    var s1 := Finish(s, r);
    if s1.nextRound > args.rounds && s1.running == 0 then s1.(resolves := s1.resolves + 1)
    else Schedule(args, s1)
  }

  // ----- the invariant -----

  /** The rounds 1..n. */
  function UpTo(n: int): (r: set<int>)
    ensures forall i :: i in r <==> 1 <= i <= n
    ensures |r| == Max(0, n)
    decreases Max(0, n)
  {
    if n <= 0 then {} else UpTo(n - 1) + {n}
  }

  /** The rounds started so far. */
  function Begun(s: State): set<int> {
    s.inFlight + s.settled + s.finished
  }

  /** Every round begun is in flight, settled or finished, and `running` counts the first two. */
  ghost predicate Partition(s: State) {
    && s.inFlight !! s.settled && s.inFlight !! s.finished && s.settled !! s.finished
    && Begun(s) == UpTo(s.nextRound - 1)
    && s.running == |s.inFlight| + |s.settled|
  }

  /** Settled rounds have results, and `failures` lists the failed ones once each. */
  ghost predicate Failing(s: State) {
    && s.results.Keys == s.settled + s.finished
    && (forall r :: r in s.failures <==> r in s.results && !s.results[r])
    && (forall i, j :: 0 <= i < j < |s.failures| ==> s.failures[i] != s.failures[j])
  }

  /** What holds at every moment, also inside `schedule`. */
  ghost predicate Inv(args: Args, s: State) {
    && 1 <= s.nextRound <= args.rounds + 1
    && s.started == seq(s.nextRound - 1, i => i + 1)
    && s.running <= args.parallel
    && Partition(s) && Failing(s)
  }

  /** What holds between callbacks: no room or nothing left to start, and resolved exactly when all is done. */
  ghost predicate Quiet(args: Args, s: State) {
    && Inv(args, s)
    && !CanStart(args, s)
    && s.resolves == if s.nextRound > args.rounds && s.running == 0 then 1 else 0
  }

  lemma StartKeeps(args: Args, s: State)
    requires Inv(args, s) && CanStart(args, s)
    ensures Inv(args, Start(s))
  {
    hide Failing;
    hide Partition;
    StartPartition(s);
    StartFailing(s);
  }

  lemma StartPartition(s: State)
    requires Partition(s) && s.nextRound >= 1
    ensures Partition(Start(s))
  {
    var n := s.nextRound;
    UpToStep(n);
    NewRound(s.inFlight, s.settled, s.finished, n);
    StartFields(s);
    hide UpTo;
    hide Start;
  }

  lemma StartFields(s: State)
    ensures var s1 := Start(s);
            && s1.nextRound == s.nextRound + 1 && s1.running == s.running + 1
            && s1.inFlight == s.inFlight + {s.nextRound}
            && s1.settled == s.settled && s1.finished == s.finished
  {
  }

  lemma NewRound(a: set<int>, b: set<int>, c: set<int>, n: int)
    requires a !! b && a !! c && b !! c && a + b + c == UpTo(n - 1)
    ensures a + {n} !! b && a + {n} !! c && a + {n} + b + c == UpTo(n - 1) + {n} && |a + {n}| == |a| + 1
  {
    hide UpTo;
    assert n !in a + b + c;
    assert a + {n} + b + c == a + b + c + {n};
  }

  lemma UpToStep(n: int)
    requires n >= 1
    ensures UpTo(n) == UpTo(n - 1) + {n}
  {
  }

  lemma StartFailing(s: State)
    requires Failing(s)
    ensures Failing(Start(s))
  {
  }

  lemma {:induction false} ScheduleKeeps(args: Args, s: State)
    requires Inv(args, s)
    ensures var s1 := Schedule(args, s);
            && Inv(args, s1) && !CanStart(args, s1)
            && s1.resolves == s.resolves && s1.failures == s.failures && s1.results == s.results
            && s1.settled == s.settled && s1.finished == s.finished
            && s.running <= s1.running && s1.nextRound - s.nextRound == s1.running - s.running
    decreases args.rounds - s.nextRound + 1
  {
    hide Inv;
    if CanStart(args, s) {
      StartKeeps(args, s);
      ScheduleKeeps(args, Start(s));
    }
  }

  lemma ThenKeeps(args: Args, s: State, r: int, ok: bool)
    requires Quiet(args, s) && r in s.inFlight
    ensures Quiet(args, Then(s, r, ok))
  {
    hide Partition;
    hide Failing;
    ThenPartition(s, r, ok);
    ThenFailing(s, r, ok);
  }

  lemma ThenPartition(s: State, r: int, ok: bool)
    requires Partition(s) && r in s.inFlight
    ensures Partition(Then(s, r, ok))
    ensures r !in s.settled + s.finished
  {
    hide UpTo;
    OneOut(s.inFlight, r);
    OneIn(s.settled, r);
    SameUnion(s.inFlight, s.settled, r);
  }

  lemma OneOut(a: set<int>, r: int)
    requires r in a
    ensures |a - {r}| == |a| - 1
  {
  }

  lemma OneIn(a: set<int>, r: int)
    requires r !in a
    ensures |a + {r}| == |a| + 1
  {
  }

  lemma SameUnion(a: set<int>, b: set<int>, r: int)
    requires r in a
    ensures (a - {r}) + (b + {r}) == a + b
  {
  }

  lemma ThenFailing(s: State, r: int, ok: bool)
    requires Failing(s) && r !in s.settled + s.finished
    ensures Failing(Then(s, r, ok))
  {
    var s1 := Then(s, r, ok);
    assert r !in s.results;
    assert forall q :: q in s1.failures <==> q in s.failures || (!ok && q == r);
  }

  /** The first assignments of the `finally` callback. */
  function Finish(s: State, r: int): State {
    s.(running := s.running - 1, settled := s.settled - {r}, finished := s.finished + {r})
  }

  lemma FinishKeeps(args: Args, s: State, r: int)
    requires Inv(args, s) && r in s.settled
    ensures Inv(args, Finish(s, r)) && s.running >= 1
  {
    hide Partition;
    hide Failing;
    FinishPartition(s, r);
    FinishFailing(s, r);
  }

  lemma FinishPartition(s: State, r: int)
    requires Partition(s) && r in s.settled
    ensures Partition(Finish(s, r)) && s.running >= 1
  {
    hide UpTo;
    OneOut(s.settled, r);
    SameUnion(s.settled, s.finished, r);
    BegunAfterFinish(s, r);
  }

  lemma BegunAfterFinish(s: State, r: int)
    requires r in s.settled
    ensures Begun(Finish(s, r)) == Begun(s)
  {
  }

  lemma FinishFailing(s: State, r: int)
    requires Failing(s) && r in s.settled
    ensures Failing(Finish(s, r))
  {
    assert Finish(s, r).settled + Finish(s, r).finished == s.settled + s.finished;
  }

  lemma FinallyKeeps(args: Args, s: State, r: int)
    requires args.parallel >= 1 && Quiet(args, s) && r in s.settled
    ensures Quiet(args, Finally(args, s, r))
  {
    hide Partition;
    hide Failing;
    FinishKeeps(args, s, r);
    var s1 := Finish(s, r);
    if s1.nextRound > args.rounds && s1.running == 0 {
      OnlyResolved(s1);
    } else {
      ScheduleKeeps(args, s1);
    }
  }

  lemma FinishFields(s: State, r: int)
    ensures Finish(s, r)
         == State(s.nextRound, s.running - 1, s.failures, s.resolves, s.started, s.inFlight, s.settled - {r},
                  s.finished + {r}, s.results)
  {
  }

  lemma FinallySteps(args: Args, s: State, r: int)
    ensures var s1 := Finish(s, r);
            Finally(args, s, r)
            == if s1.nextRound > args.rounds && s1.running == 0 then s1.(resolves := s1.resolves + 1)
               else Schedule(args, s1)
  {
  }

  lemma OnlyResolved(s: State)
    ensures var s1 := s.(resolves := s.resolves + 1); (Partition(s1) <==> Partition(s)) && (Failing(s1) <==> Failing(s))
  {
    hide UpTo;
  }

  // ----- runs -----

  datatype Event = Settle(round: int, ok: bool) | Done(round: int)

  predicate Enabled(s: State, ev: Event) {
    match ev
    case Settle(r, _) => r in s.inFlight
    case Done(r) => r in s.settled
  }

  function Step(args: Args, s: State, ev: Event): State {
    match ev
    case Settle(r, ok) => Then(s, r, ok)
    case Done(r) => Finally(args, s, r)
  }

  /** The state after `evs`, from the first call of `schedule`. */
  function After(args: Args, evs: seq<Event>): State {
    if evs == [] then Schedule(args, Idle)
    else Step(args, After(args, evs[..|evs| - 1]), evs[|evs| - 1])
  }

  predicate IsRun(args: Args, evs: seq<Event>) {
    evs == [] || (IsRun(args, evs[..|evs| - 1]) && Enabled(After(args, evs[..|evs| - 1]), evs[|evs| - 1]))
  }

  /** In every interleaving: the cap, work conservation, starts in order, and resolution exactly at the end. */
  lemma {:induction false} RunKeeps(args: Args, evs: seq<Event>)
    requires 1 <= args.parallel <= args.rounds && IsRun(args, evs)
    ensures Quiet(args, After(args, evs))
    ensures |evs| == |After(args, evs).settled| + 2 * |After(args, evs).finished|
  {
    if evs == [] {
      assert Inv(args, Idle);
      ScheduleKeeps(args, Idle);
    } else {
      var before := evs[..|evs| - 1];
      RunKeeps(args, before);
      StepKeeps(args, After(args, before), evs[|evs| - 1]);
    }
  }

  lemma StepKeeps(args: Args, s: State, ev: Event)
    requires args.parallel >= 1 && Quiet(args, s) && Enabled(s, ev)
    ensures var s1 := Step(args, s, ev);
            Quiet(args, s1) && |s1.settled| + 2 * |s1.finished| == |s.settled| + 2 * |s.finished| + 1
  {
    match ev
    case Settle(r, ok) =>
      SetSizes(s, r);
      hide *;
      ThenKeeps(args, s, r, ok);
      ThenSets(s, r, ok);
    case Done(r) =>
      SetSizes(s, r);
      hide *;
      FinallyKeeps(args, s, r);
      FinallySets(args, s, r);
  }

  lemma SetSizes(s: State, r: int)
    requires Partition(s)
    ensures r in s.inFlight ==> |s.settled + {r}| == |s.settled| + 1
    ensures r in s.settled ==> |s.settled - {r}| == |s.settled| - 1 && |s.finished + {r}| == |s.finished| + 1
  {
  }

  lemma ThenSets(s: State, r: int, ok: bool)
    ensures Then(s, r, ok).settled == s.settled + {r} && Then(s, r, ok).finished == s.finished
  {
  }

  lemma FinallySets(args: Args, s: State, r: int)
    ensures var s1 := Finally(args, s, r); s1.settled == s.settled - {r} && s1.finished == s.finished + {r}
  {
    ScheduleSets(args, Finish(s, r));
  }

  lemma {:induction false} ScheduleSets(args: Args, s: State)
    ensures var s1 := Schedule(args, s); s1.settled == s.settled && s1.finished == s.finished
    decreases args.rounds - s.nextRound + 1
  {
    if CanStart(args, s) {
      ScheduleSets(args, Start(s));
    }
  }

  /**
    Completion: at most two events a round can happen; while fewer have, some callback is due; and when all
    have, the promise has resolved exactly once, every round 1..N has started once in order and finished,
    and `failures` holds exactly the rounds that failed.
   */
  lemma Completion(args: Args, evs: seq<Event>)
    requires 1 <= args.parallel <= args.rounds && IsRun(args, evs)
    ensures |evs| <= 2 * args.rounds
    ensures var s := After(args, evs); |evs| < 2 * args.rounds <==> exists ev :: Enabled(s, ev)
    ensures var s := After(args, evs); |evs| == 2 * args.rounds <==> s.resolves == 1
    ensures var s := After(args, evs);
            s.resolves == 1 ==>
              && s.started == seq(args.rounds, i => i + 1)
              && s.finished == s.results.Keys == UpTo(args.rounds)
              && (forall r :: r in s.failures <==> r in s.results && !s.results[r])
              && (forall i, j :: 0 <= i < j < |s.failures| ==> s.failures[i] != s.failures[j])
  {
    RunKeeps(args, evs);
    var s := After(args, evs);
    assert |Begun(s)| == |s.inFlight| + |s.settled| + |s.finished|;
    if s.inFlight != {} {
      var r :| r in s.inFlight;
      assert Enabled(s, Settle(r, true));
    }
    if s.settled != {} {
      var r :| r in s.settled;
      assert Enabled(s, Done(r));
    }
    if s.resolves == 1 {
      assert s.inFlight == {} && s.settled == {};
      assert Begun(s) == s.finished;
    }
  }

  // ----- the source's shared variables and callbacks -----

  class Runner {
    const args: Args
    var nextRound: int
    var running: int
    var failures: seq<int>
    var resolves: nat
    ghost var started: seq<int>
    ghost var inFlight: set<int>
    ghost var settled: set<int>
    ghost var finished: set<int>
    ghost var results: map<int, bool>

    ghost function Now(): State
      reads this
    {
      State(nextRound, running, failures, resolves, started, inFlight, settled, finished, results)
    }

    constructor (raw: Args)
      ensures args == Clamp(raw) && Now() == After(args, []) && Quiet(args, Now())
    {
      args := Clamp(raw);
      nextRound, running, failures, resolves := 1, 0, [], 0;
      started, inFlight, settled, finished, results := [], {}, {}, {}, map[];
      new;
      RunKeeps(args, []);
      ScheduleRounds();
    }

    method ScheduleRounds()
      modifies this
      ensures Now() == Schedule(args, old(Now()))
    {
      while running < args.parallel && nextRound <= args.rounds
        invariant Schedule(args, Now()) == Schedule(args, old(Now()))
        decreases args.rounds - nextRound + 1
      {
        var round := nextRound;
        nextRound := nextRound + 1;
        running := running + 1;
        started, inFlight := started + [round], inFlight + {round};
      }
    }

    method OnThen(round: int, ok: bool)
      requires Quiet(args, Now()) && round in inFlight
      modifies this
      ensures Now() == Then(old(Now()), round, ok) && Quiet(args, Now())
    {
      hide Quiet;
      ThenKeeps(args, Now(), round, ok);
      if !ok {
        failures := failures + [round];
      }
      inFlight, settled, results := inFlight - {round}, settled + {round}, results[round := ok];
    }

    method OnFinally(round: int)
      requires args.parallel >= 1 && Quiet(args, Now()) && round in settled
      modifies this
      ensures Now() == Finally(args, old(Now()), round) && Quiet(args, Now())
    {
      hide Quiet;
      hide Finally;
      hide Schedule;
      hide Finish;
      ghost var before, after := Now(), Finish(Now(), round);
      FinallyKeeps(args, before, round);
      FinallySteps(args, before, round);
      FinishFields(before, round);
      settled, finished := settled - {round}, finished + {round};
      running := running - 1;
      assert Now() == after;
      if nextRound > args.rounds && running == 0 {
        resolves := resolves + 1;
        return;
      }
      ScheduleRounds();
    }
  }
}
