/**
  Runs of the task wrapper: any sequence of its calls, by any tasks and in any order. Exactly when the
  audit log accounts for every task all along, and what a final diff can then hold.
 */
module WrapperRuns {
  import opened Basics
  import opened Files
  import opened PathOrder
  import opened Snapshot
  import opened Rollback
  import opened SnapshotRuns
  import opened Wrapper

  ghost predicate Ready(cfg: Config, w: World) {
    Faithful(cfg) && Hidden(cfg) && WellFormed(w.fs)
  }

  ghost predicate Accounted(cfg: Config, w: World) {
    AllAccount(cfg, w.fs, w.audit)
  }

  /** What keeps the log complete over one call: a condition on manifests written, or on copies made. */
  ghost predicate Guard(cfg: Config, w: World, c: Call, w1: World) {
    match c
    case Write(_, path, content, ok) =>
      ok ==> forall u :: TaskName(u) && path == ManifestPath(cfg, u) ==> Admits(cfg, w.fs, w.audit, u, content)
    case Run(_, Some(_)) =>
      forall u :: TaskName(u) && SavedOf(cfg, w1.fs, u) != SavedOf(cfg, w.fs, u) ==> Accounts(cfg, w1.fs, w1.audit, u)
    case RollBack(t, dryRun, d, _) =>
      SavedOf(cfg, w.fs, t).Some? && !dryRun ==> forall u :: TaskName(u) ==> Spared(cfg, w.fs, w.audit, t, d, u)
    case _ => true
  }

  ghost predicate IsRun(cfg: Config, worlds: seq<World>, calls: seq<Call>) {
    && |worlds| == |calls| + 1 && Ready(cfg, worlds[0])
    && (forall i :: 0 <= i < |calls| ==> TaskName(calls[i].task))
    && (forall i :: 0 <= i < |calls| ==> Step(cfg, worlds[i], calls[i], worlds[i + 1]))
  }

  // ----- one call -----

  lemma StartStep(cfg: Config, w: World, t: TaskId, ok: bool, w1: World)
    requires Ready(cfg, w) && Step(cfg, w, Start(t, ok), w1)
    ensures Ready(cfg, w1) && (Accounted(cfg, w) ==> Accounted(cfg, w1))
  {
    hide *;
    var rels, records := Starting(cfg, w, t, ok, w1);
    CurrentIs(cfg, w.fs);
    StartedWell(cfg, t, w.fs, rels, records, w.audit);
    AccountedIs(cfg, w);
    AccountedIs(cfg, w1);
  }

  lemma Starting(cfg: Config, w: World, t: TaskId, ok: bool, w1: World) returns (rels: seq<Path>, records: seq<Record>)
    requires Ready(cfg, w) && Step(cfg, w, Start(t, ok), w1)
    ensures Faithful(cfg) && Hidden(cfg) && WellFormed(w.fs) && TaskName(t)
    ensures var e := CreateEffect(cfg, t, w.fs, rels, records);
            && (e.ok ==> AsDict(records) == Current(cfg, w.fs))
            && w1 == World(e.fs, if e.ok then w.audit + [TaskStart(t)] else w.audit)
    ensures WellFormed(w1.fs) ==> Ready(cfg, w1)
  {
    hide Faithful, Hidden, WellFormed, Current, AsDict, CreateEffect;
    rels, records :| Starts(cfg, w, t, ok, rels, records, w1);
  }

  lemma AccountedIs(cfg: Config, w: World)
    ensures Accounted(cfg, w) <==> AllAccount(cfg, w.fs, w.audit)
  {
  }

  lemma WriteStep(cfg: Config, w: World, c: Call, w1: World)
    requires Ready(cfg, w) && c.Write? && Step(cfg, w, c, w1)
    ensures Ready(cfg, w1) && (Accounted(cfg, w) ==> (Accounted(cfg, w1) <==> Guard(cfg, w, c, w1)))
  {
    hide Faithful, Hidden, WellFormed, AllAccount, WriteText, Admits;
    WriteTouches(cfg, w.fs, c.path, c.content);
    WriteAllIff(cfg, w.fs, w.audit, c.task, c.path, c.content);
  }

  lemma RunStep(cfg: Config, w: World, c: Call, w1: World)
    requires Ready(cfg, w) && c.Run? && Step(cfg, w, c, w1)
    ensures Ready(cfg, w1) && (Accounted(cfg, w) ==> (Accounted(cfg, w1) <==> Guard(cfg, w, c, w1)))
  {
    hide Faithful, Hidden, WellFormed, AllAccount, Current, SavedOf, Accounts, Touched, Sorts;
    if c.modified.Some? {
      CommandAllIff(cfg, w.fs, w1.fs, w.audit, c.task, c.modified.value);
    } else {
      QuietAll(cfg, w.fs, w.audit, RanCommand(c.task, []));
    }
  }

  lemma RollBackStep(cfg: Config, w: World, c: Call, w1: World)
    requires Ready(cfg, w) && c.RollBack? && TaskName(c.task) && Step(cfg, w, c, w1)
    ensures Ready(cfg, w1) && (Accounted(cfg, w) ==> (Accounted(cfg, w1) <==> Guard(cfg, w, c, w1)))
  {
    hide Faithful, Hidden, WellFormed, AllAccount, Current, SavedOf, AsDict, IsDiff, RollbackEffect, Spared, TaskName;
    RollbackOutcome(cfg, w.fs, w.audit, c.task, c.dryRun, c.diff, w1.fs, c.ok, w1.audit);
  }

  lemma FinishStep(cfg: Config, w: World, c: Call, w1: World)
    requires Ready(cfg, w) && c.Finish? && Step(cfg, w, c, w1)
    ensures Ready(cfg, w1) && (Accounted(cfg, w) ==> Accounted(cfg, w1))
  {
    hide Faithful, Hidden, WellFormed, AllAccount, Current, SavedOf, AsDict, IsDiff;
    if c.result.Some? {
      QuietAll(cfg, w.fs, w.audit, TaskEnd(c.task, c.success, c.result.value));
    }
  }

  /** Each call keeps the log complete exactly under its guard. */
  lemma StepIff(cfg: Config, w: World, c: Call, w1: World)
    requires Ready(cfg, w) && TaskName(c.task) && Step(cfg, w, c, w1)
    ensures Ready(cfg, w1) && (Accounted(cfg, w) ==> (Accounted(cfg, w1) <==> Guard(cfg, w, c, w1)))
  {
    hide Ready, Accounted, Step, TaskName;
    match c
    case Start(t, ok) => StartStep(cfg, w, t, ok, w1);
    case Write(_, _, _, _) => WriteStep(cfg, w, c, w1);
    case Run(_, _) => RunStep(cfg, w, c, w1);
    case RollBack(_, _, _, _) => RollBackStep(cfg, w, c, w1);
    case Finish(_, _, _) => FinishStep(cfg, w, c, w1);
  }

  // ----- whole runs -----

  lemma {:induction false} RunReady(cfg: Config, worlds: seq<World>, calls: seq<Call>, k: nat)
    requires IsRun(cfg, worlds, calls) && k <= |calls|
    ensures Ready(cfg, worlds[k])
  {
    hide Ready, Step, TaskName, Guard;
    if k > 0 {
      RunReady(cfg, worlds, calls, k - 1);
      assert Step(cfg, worlds[k - 1], calls[k - 1], worlds[k - 1 + 1]);
      StepIff(cfg, worlds[k - 1], calls[k - 1], worlds[k]);
    }
  }

  /**
    Over every run from a complete log: the log accounts for every task after each of the first `k` calls
    if and only if each of them met its guard.
   */
  lemma {:induction false} RunAccountsIff(cfg: Config, worlds: seq<World>, calls: seq<Call>, k: nat)
    requires IsRun(cfg, worlds, calls) && Accounted(cfg, worlds[0]) && k <= |calls|
    ensures (forall i :: 0 <= i <= k ==> Accounted(cfg, worlds[i]))
       <==> (forall i :: 0 <= i < k ==> Guard(cfg, worlds[i], calls[i], worlds[i + 1]))
  {
    hide Ready, Step, TaskName, Guard, Accounted;
    if k > 0 {
      RunAccountsIff(cfg, worlds, calls, k - 1);
      RunReady(cfg, worlds, calls, k - 1);
      assert Step(cfg, worlds[k - 1], calls[k - 1], worlds[k - 1 + 1]);
      StepIff(cfg, worlds[k - 1], calls[k - 1], worlds[k]);
    }
  }

  /**
    The promise of the wrapper, over every run that began with a complete log and met its guards: whatever a
    task's final diff lists was written, or changed by a command, or listed by a rollback, since it started.
   */
  lemma FinishOverRuns(cfg: Config, worlds: seq<World>, calls: seq<Call>, k: nat)
    requires IsRun(cfg, worlds, calls) && Accounted(cfg, worlds[0])
    requires k < |calls| && calls[k].Finish? && calls[k].result.Some?
    requires forall i :: 0 <= i < k ==> Guard(cfg, worlds[i], calls[i], worlds[i + 1])
    ensures var t, d, w := calls[k].task, calls[k].result.value, worlds[k];
            && SavedOf(cfg, w.fs, t).Some? && IsDiff(d, AsDict(SavedOf(cfg, w.fs, t).value.files), Current(cfg, w.fs))
            && DiffPaths(d) <= NamedSince(cfg, w.audit, t)
  {
    var t, d, w := calls[k].task, calls[k].result.value, worlds[k];
    hide Ready, Step, TaskName, Guard, Accounted;
    RunAccountsIff(cfg, worlds, calls, k);
    assert Step(cfg, w, calls[k], worlds[k + 1]) && TaskName(t);
    Finishing(cfg, w, calls[k], worlds[k + 1]);
    AccountedIs(cfg, w);
    hide *;
    FinishExplained(cfg, w.fs, w.audit, t, d);
  }

  lemma Finishing(cfg: Config, w: World, c: Call, w1: World)
    requires c.Finish? && c.result.Some? && Step(cfg, w, c, w1)
    ensures SavedOf(cfg, w.fs, c.task).Some?
    ensures IsDiff(c.result.value, AsDict(SavedOf(cfg, w.fs, c.task).value.files), Current(cfg, w.fs))
  {
    hide SavedOf, IsDiff, AsDict, Current;
  }
}
