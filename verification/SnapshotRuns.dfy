/**
  Runs of the snapshot manager: any interleaving of snapshots under fresh task ids, edits outside the
  snapshot area, and rollbacks that may succeed or raise. Every snapshot taken stays restorable.
 */
module SnapshotRuns {
  import opened Basics
  import opened Files
  import opened PathOrder
  import opened Snapshot
  import opened Rollback

  datatype Event = Took(task: TaskId) | Edited | RolledBack(task: TaskId)

  /** A task id is one path component. */
  predicate TaskName(t: TaskId) {
    t != "" && '/' !in t
  }

  ghost predicate SameArea(cfg: Config, fs: FileSystem, fs1: FileSystem) {
    forall p :: AtOrUnder(cfg.root, p) ==>
      && (p in fs.files <==> p in fs1.files) && (p in fs.files ==> fs.files[p] == fs1.files[p])
      && (p in fs.dirs <==> p in fs1.dirs)
  }

  /** Nothing of the task is there yet. */
  predicate FreshId(cfg: Config, fs: FileSystem, t: TaskId) {
    TaskName(t) && TaskRoot(cfg, t) !in fs.files && TaskRoot(cfg, t) !in fs.dirs
  }

  /** `create_snapshot` under a new id, as SnapshotManager.CreateSnapshot specifies it. */
  ghost predicate Taking(cfg: Config, fs: FileSystem, t: TaskId, fs1: FileSystem, rels: seq<Path>, records: seq<Record>,
                         ok: bool) {
    && FreshId(cfg, fs, t)
    && (forall r :: r in rels ==> r in Scan(cfg, fs))
    && (ok ==> forall r :: r in Scan(cfg, fs) ==> r in rels)
    && (ok ==> AsDict(records) == Digests(cfg, Scan(cfg, fs)))
    && Effect(fs1, ok) == CreateEffect(cfg, t, fs, rels, records)
  }

  ghost predicate Next(cfg: Config, fs: FileSystem, ev: Event, fs1: FileSystem) {
    match ev
    case Took(t) => exists rels, records, ok :: Taking(cfg, fs, t, fs1, rels, records, ok)
    case Edited => WellFormed(fs1) && SameArea(cfg, fs, fs1)
    case RolledBack(t) =>
      && TaskName(t) && SavedOf(cfg, fs, t).Some?
      && exists d :: IsDiff(d, AsDict(SavedOf(cfg, fs, t).value.files), Digests(cfg, Scan(cfg, fs)))
                     && fs1 == RollbackEffect(cfg, SavedOf(cfg, fs, t).value.filesRoot, fs, d).fs
  }

  /** The manifest of `t` is that of the files its snapshot saw, and the copies still hold them. */
  ghost predicate OnRecord(cfg: Config, fs: FileSystem, t: TaskId, files: map<Path, Content>) {
    && TaskName(t) && Kept(cfg, fs, t, files)
    && SavedOf(cfg, fs, t).Some?
    && SavedOf(cfg, fs, t).value.filesRoot == FilesRoot(cfg, t)
    && AsDict(SavedOf(cfg, fs, t).value.files) == Digests(cfg, files)
  }

  /** What every step keeps; `taken` records the files that each task's snapshot saw. */
  ghost predicate Inv(cfg: Config, fs: FileSystem, taken: map<TaskId, map<Path, Content>>) {
    && Faithful(cfg) && Hidden(cfg) && WellFormed(fs) && cfg.root in fs.dirs
    && (forall t :: t in taken ==> OnRecord(cfg, fs, t, taken[t]))
    && (forall p :: (p in fs.files || p in fs.dirs) && Under(cfg.root, p) ==>
          exists t :: t in taken && AtOrUnder(TaskRoot(cfg, t), p))
  }

  /** An empty snapshot area satisfies it; so does what any run leaves. */
  lemma NothingTaken(cfg: Config, fs: FileSystem)
    requires Faithful(cfg) && Hidden(cfg) && WellFormed(fs) && cfg.root in fs.dirs
    requires forall p :: Under(cfg.root, p) ==> p !in fs.files && p !in fs.dirs
    ensures Inv(cfg, fs, map[])
  {
  }

  // ----- one step -----

  lemma CopyInArea(cfg: Config, t: TaskId, r: Path)
    ensures var p := Join(FilesRoot(cfg, t), r); Under(cfg.root, p) && Under(TaskRoot(cfg, t), p)
  {
    UnderTransitive(TaskRoot(cfg, t), FilesRoot(cfg, t), Join(FilesRoot(cfg, t), r));
    UnderTransitive(cfg.root, TaskRoot(cfg, t), Join(FilesRoot(cfg, t), r));
  }

  lemma ManifestInArea(cfg: Config, t: TaskId)
    ensures Under(cfg.root, ManifestPath(cfg, t)) && Under(TaskRoot(cfg, t), ManifestPath(cfg, t))
  {
    UnderTransitive(cfg.root, TaskRoot(cfg, t), ManifestPath(cfg, t));
  }

  /** A record depends on the snapshot area only. */
  lemma RecordInSameArea(cfg: Config, fs: FileSystem, fs1: FileSystem, t: TaskId, files: map<Path, Content>)
    requires OnRecord(cfg, fs, t, files)
    requires forall p :: Under(TaskRoot(cfg, t), p) && Under(cfg.root, p) && p in fs.files ==>
               p in fs1.files && fs1.files[p] == fs.files[p]
    ensures OnRecord(cfg, fs1, t, files)
  {
    ManifestInArea(cfg, t);
    forall r | r in files
      ensures Join(FilesRoot(cfg, t), r) in fs1.files && fs1.files[Join(FilesRoot(cfg, t), r)] == files[r]
    {
      CopyInArea(cfg, t, r);
    }
  }

  lemma SameAreaStep(cfg: Config, fs: FileSystem, fs1: FileSystem, taken: map<TaskId, map<Path, Content>>)
    requires Inv(cfg, fs, taken) && SameArea(cfg, fs, fs1) && WellFormed(fs1)
    ensures Inv(cfg, fs1, taken)
  {
    hide OnRecord;
    hide Under;
    hide TaskRoot;
    forall t | t in taken
      ensures OnRecord(cfg, fs1, t, taken[t])
    {
      RecordInSameArea(cfg, fs, fs1, t, taken[t]);
    }
  }

  /** A readable manifest in the area is that of a task taken. */
  lemma SavedIsTaken(cfg: Config, fs: FileSystem, t: TaskId, taken: map<TaskId, map<Path, Content>>)
    requires Inv(cfg, fs, taken) && TaskName(t) && SavedOf(cfg, fs, t).Some?
    ensures t in taken
  {
    var p := ManifestPath(cfg, t);
    ManifestInArea(cfg, t);
    var u :| u in taken && AtOrUnder(TaskRoot(cfg, u), p);
    assert OnRecord(cfg, fs, u, taken[u]);
    TaskAreasApart(cfg, t, u, p);
  }

  lemma RollbackStep(cfg: Config, fs: FileSystem, t: TaskId, fs1: FileSystem, taken: map<TaskId, map<Path, Content>>)
    requires Inv(cfg, fs, taken) && Next(cfg, fs, RolledBack(t), fs1)
    ensures Inv(cfg, fs1, taken)
  {
    SavedIsTaken(cfg, fs, t, taken);
    assert OnRecord(cfg, fs, t, taken[t]);
    var d :| IsDiff(d, Digests(cfg, taken[t]), Digests(cfg, Scan(cfg, fs)))
             && fs1 == RollbackEffect(cfg, FilesRoot(cfg, t), fs, d).fs;
    assert Ready(cfg, t, fs, taken[t], d);
    hide *;
    forall p | AtOrUnder(cfg.root, p)
      ensures (p in fs.files <==> p in fs1.files) && (p in fs.files ==> fs.files[p] == fs1.files[p])
              && (p in fs.dirs <==> p in fs1.dirs)
    {
      SnapshotAreaKept(cfg, t, fs, taken[t], d, p);
    }
    IsSameArea(cfg, fs, fs1);
    RollbackWellFormed(cfg, FilesRoot(cfg, t), fs, d, taken);
    SameAreaStep(cfg, fs, fs1, taken);
  }

  lemma IsSameArea(cfg: Config, fs: FileSystem, fs1: FileSystem)
    requires forall p :: AtOrUnder(cfg.root, p) ==>
               && (p in fs.files <==> p in fs1.files) && (p in fs.files ==> fs.files[p] == fs1.files[p])
               && (p in fs.dirs <==> p in fs1.dirs)
    ensures SameArea(cfg, fs, fs1)
  {
  }

  lemma RollbackWellFormed(cfg: Config, from: Path, fs: FileSystem, d: Diff, taken: map<TaskId, map<Path, Content>>)
    requires Inv(cfg, fs, taken)
    ensures WellFormed(RollbackEffect(cfg, from, fs, d).fs)
  {
    hide *;
    InvWellFormed(cfg, fs, taken);
    KeepsWellFormed(cfg, from, fs, d);
  }

  lemma InvWellFormed(cfg: Config, fs: FileSystem, taken: map<TaskId, map<Path, Content>>)
    requires Inv(cfg, fs, taken)
    ensures WellFormed(fs)
  {
  }

  /** Different task names have disjoint areas. */
  lemma TaskAreasApart(cfg: Config, t: TaskId, u: TaskId, p: Path)
    requires TaskName(t) && TaskName(u) && AtOrUnder(TaskRoot(cfg, t), p) && AtOrUnder(TaskRoot(cfg, u), p)
    ensures t == u
  {
    var a, b := TaskRoot(cfg, t), TaskRoot(cfg, u);
    if a != b {
      if a != p {
        UnderLinear(a, b, p);
      } else {
        UnderLinear(b, a, p);
      }
      JoinUnder(cfg.root, t, u);
      JoinUnder(cfg.root, u, t);
    } else {
      JoinUnder(cfg.root, t, u);
    }
  }

  /** Under a fresh id nothing exists yet in the task's area. */
  lemma FreshArea(cfg: Config, fs: FileSystem, t: TaskId, p: Path)
    requires WellFormed(fs) && FreshId(cfg, fs, t) && AtOrUnder(TaskRoot(cfg, t), p)
    ensures p !in fs.files && p !in fs.dirs
  {
    assert p != TaskRoot(cfg, t) ==> TaskRoot(cfg, t) in Ancestors(p);
  }

  /** Directly below the root there is nothing above a task's area. */
  lemma NothingBetween(cfg: Config, d: Path, t: TaskId)
    requires TaskName(t) && Under(cfg.root, d)
    ensures !Under(d, TaskRoot(cfg, t))
  {
    var p := TaskRoot(cfg, t);
    assert forall k :: |cfg.root| < k < |p| ==> p[k] == t[k - |cfg.root| - 1];
  }

  lemma AboveTask(cfg: Config, t: TaskId, d: Path, p: Path)
    requires TaskName(t) && Under(TaskRoot(cfg, t), p) && AtOrUnder(d, p)
    ensures Under(cfg.root, d) ==> AtOrUnder(TaskRoot(cfg, t), d)
  {
    if Under(cfg.root, d) {
      NothingBetween(cfg, d, t);
      UnderLinear(TaskRoot(cfg, t), d, p);
    }
  }

  /** The files root of a fresh task can be made, and every visible file has a free place below it. */
  lemma FreshPlaceable(cfg: Config, fs: FileSystem, t: TaskId, rels: seq<Path>)
    requires Hidden(cfg) && WellFormed(fs) && cfg.root in fs.dirs && FreshId(cfg, fs, t)
    requires forall r :: r in rels ==> r in Scan(cfg, fs)
    ensures var made := MakeDir(fs, FilesRoot(cfg, t));
            made.ok && WellFormed(made.fs) && Placeable(made.fs, cfg.workspace, FilesRoot(cfg, t), rels)
    ensures forall r :: r in rels ==> Join(cfg.workspace, r) in fs.files
  {
    var root := FilesRoot(cfg, t);
    var made := MakeDir(fs, root);
    MakeDirMeaning(fs, root);
    UnderTransitive(cfg.root, TaskRoot(cfg, t), root);
    forall a | AtOrUnder(a, root)
      ensures a !in fs.files
    {
      AncestorNoFile(cfg, fs, t, a);
    }
    MakeParentsWellFormed(fs, Join(root, ""));
    FilesRootHidden(cfg, t);
    forall r | r in rels
      ensures Join(cfg.workspace, r) in fs.files && Visible(cfg, Join(cfg.workspace, r))
      ensures Free(made.fs, Join(root, r))
    {
      ScanMeaning(cfg, fs, r);
      TargetFree(cfg, fs, t, r);
    }
    forall r, q | r in rels && q in rels
      ensures !Under(r, q)
      ensures Join(cfg.workspace, r) != Join(root, q)
    {
      JoinUnder(cfg.workspace, r, q);
      assert Ancestors(Join(cfg.workspace, q)) <= fs.dirs;
      assert AtOrUnder(root, Join(root, q));
    }
  }

  lemma AncestorNoFile(cfg: Config, fs: FileSystem, t: TaskId, a: Path)
    requires WellFormed(fs) && cfg.root in fs.dirs && FreshId(cfg, fs, t) && AtOrUnder(a, FilesRoot(cfg, t))
    ensures a !in fs.files
  {
    var root := FilesRoot(cfg, t);
    UnderTransitive(cfg.root, TaskRoot(cfg, t), root);
    if AtOrUnder(TaskRoot(cfg, t), a) {
      FreshArea(cfg, fs, t, a);
    } else {
      AboveTask(cfg, t, a, root);
      if a != cfg.root {
        UnderLinear(a, cfg.root, root);
      }
      assert Ancestors(cfg.root) <= fs.dirs;
    }
  }

  lemma TargetFree(cfg: Config, fs: FileSystem, t: TaskId, r: Path)
    requires WellFormed(fs) && cfg.root in fs.dirs && FreshId(cfg, fs, t) && MakeDir(fs, FilesRoot(cfg, t)).ok
    ensures Free(MakeDir(fs, FilesRoot(cfg, t)).fs, Join(FilesRoot(cfg, t), r))
  {
    var root, made := FilesRoot(cfg, t), MakeDir(fs, FilesRoot(cfg, t));
    var p := Join(root, r);
    CopyInArea(cfg, t, r);
    FreshArea(cfg, fs, t, p);
    MakeDirMeaning(fs, root);
    forall a | a in Ancestors(p)
      ensures a !in fs.files
    {
      if a != root {
        UnderLinear(a, root, p);
      }
      if Under(root, a) {
        UnderTransitive(TaskRoot(cfg, t), root, a);
        FreshArea(cfg, fs, t, a);
      } else {
        AncestorNoFile(cfg, fs, t, a);
      }
    }
  }

  /** The tree after copying under a fresh id. */
  lemma CopiedTree(cfg: Config, fs: FileSystem, t: TaskId, rels: seq<Path>)
    requires Hidden(cfg) && WellFormed(fs) && cfg.root in fs.dirs && FreshId(cfg, fs, t)
    requires forall r :: r in rels ==> r in Scan(cfg, fs)
    ensures forall r :: r in rels ==> Join(cfg.workspace, r) in fs.files
    ensures var e := CopyEffect(cfg, t, fs, rels);
            && e.ok && WellFormed(e.fs)
            && e.fs.files == fs.files + Placed(fs.files, cfg.workspace, FilesRoot(cfg, t), rels)
            && e.fs.dirs == fs.dirs + Parents(FilesRoot(cfg, t), rels) + Ancestors(Join(FilesRoot(cfg, t), ""))
  {
    hide *;
    var root := FilesRoot(cfg, t);
    var made := MakeDir(fs, root);
    FreshPlaceable(cfg, fs, t, rels);
    CopyParts(cfg, t, fs, rels);
    PlaceAllFree(made.fs, cfg.workspace, root, rels);
    PlaceAllKeeps(made.fs, cfg.workspace, root, rels);
    assert fs.dirs + Ancestors(Join(root, "")) + Parents(root, rels)
        == fs.dirs + Parents(root, rels) + Ancestors(Join(root, ""));
  }

  lemma CopyParts(cfg: Config, t: TaskId, fs: FileSystem, rels: seq<Path>)
    ensures var made := MakeDir(fs, FilesRoot(cfg, t));
            && (made.ok ==> CopyEffect(cfg, t, fs, rels) == PlaceAll(made.fs, cfg.workspace, FilesRoot(cfg, t), rels))
            && (made.ok ==> made.fs == FileSystem(fs.files, fs.dirs + Ancestors(Join(FilesRoot(cfg, t), ""))))
  {
    hide PlaceAll;
  }

  /** What copying adds lies at the files root or below it, or above it. */
  lemma AddedWhere(root: Path, rels: seq<Path>, p: Path)
    requires p in Targets(root, rels) + Parents(root, rels) + Ancestors(Join(root, ""))
    ensures AtOrUnder(root, p) || Under(p, root)
  {
    hide Under;
    hide Join;
    if p in Targets(root, rels) {
    } else if p in Parents(root, rels) {
      var r :| r in rels && p in Ancestors(Join(root, r));
      UnderLinear(p, root, Join(root, r));
    } else {
      UnderLinear(p, root, Join(root, ""));
    }
  }

  /** The manifest path stands apart from all that. */
  lemma ManifestApart(cfg: Config, t: TaskId, p: Path)
    requires AtOrUnder(FilesRoot(cfg, t), p) || Under(p, FilesRoot(cfg, t))
    ensures p != ManifestPath(cfg, t) && !Under(ManifestPath(cfg, t), p)
  {
    var top, root, mine := TaskRoot(cfg, t), FilesRoot(cfg, t), ManifestPath(cfg, t);
    JoinUnder(top, "files", "manifest.json");
    JoinUnder(top, "manifest.json", "files");
    assert !Under("files", "manifest.json") && !Under("manifest.json", "files");
    if p == mine || Under(mine, p) {
      if Under(root, p) {
        UnderLinear(root, mine, p);
      } else if Under(p, root) && p != mine {
        UnderTransitive(mine, p, root);
      }
    }
  }

  /** The tree after a snapshot under a fresh id, which cannot fail: the copied tree and the manifest file. */
  lemma CreatedTree(cfg: Config, fs: FileSystem, t: TaskId, rels: seq<Path>, records: seq<Record>)
    requires Hidden(cfg) && WellFormed(fs) && cfg.root in fs.dirs && FreshId(cfg, fs, t)
    requires forall r :: r in rels ==> r in Scan(cfg, fs)
    ensures var copied, e := CopyEffect(cfg, t, fs, rels), CreateEffect(cfg, t, fs, rels, records);
            && e.ok && WellFormed(e.fs) && e.fs.dirs == copied.fs.dirs
            && e.fs.files == copied.fs.files[ManifestPath(cfg, t) := cfg.render(Saved(FilesRoot(cfg, t), records))]
  {
    var mine, copied := ManifestPath(cfg, t), CopyEffect(cfg, t, fs, rels);
    CopiedTree(cfg, fs, t, rels);
    ManifestInArea(cfg, t);
    FreshArea(cfg, fs, t, mine);
    if mine in copied.fs.dirs {
      AddedWhere(FilesRoot(cfg, t), rels, mine);
      ManifestApart(cfg, t, mine);
    }
    MakeDirMeaning(fs, FilesRoot(cfg, t));
    forall a | a in Ancestors(mine)
      ensures a in copied.fs.dirs && a != mine
    {
      AboveName(TaskRoot(cfg, t), "manifest.json", a);
      if a != TaskRoot(cfg, t) {
        UnderTransitive(a, TaskRoot(cfg, t), FilesRoot(cfg, t));
      }
      assert a in Ancestors(FilesRoot(cfg, t));
    }
    hide CopyEffect;
    hide Scan;
    hide Parents;
    WriteKeeps(copied.fs, mine, cfg.render(Saved(FilesRoot(cfg, t), records)));
  }

  lemma WriteKeeps(fs: FileSystem, p: Path, content: Content)
    requires WellFormed(fs) && p !in fs.dirs && Ancestors(p) <= fs.dirs
    ensures Write(fs, p, content) == Effect(fs.(files := fs.files[p := content]), true)
    ensures WellFormed(Write(fs, p, content).fs)
  {
  }

  /** A snapshot under a fresh id cannot fail, and the invariant then covers it too. */
  lemma TakeStep(cfg: Config, fs: FileSystem, t: TaskId, fs1: FileSystem, rels: seq<Path>, records: seq<Record>,
                 ok: bool,
                 taken: map<TaskId, map<Path, Content>>)
    requires Inv(cfg, fs, taken) && Taking(cfg, fs, t, fs1, rels, records, ok)
    ensures ok && Inv(cfg, fs1, taken[t := Scan(cfg, fs)])
  {
    CreatedTree(cfg, fs, t, rels, records);
    CreatedManifest(cfg, t, fs, rels, records);
    CopiedTree(cfg, fs, t, rels);
    assert ok && forall r :: r in rels <==> r in Scan(cfg, fs);
    TakenKept(cfg, fs, t, fs1, rels, records);
    forall u | u in taken && u != t
      ensures OnRecord(cfg, fs1, u, taken[u])
    {
      OthersOnRecord(cfg, fs, t, fs1, rels, records, taken[u], u);
    }
    forall p | (p in fs1.files || p in fs1.dirs) && Under(cfg.root, p) && p !in fs.files && p !in fs.dirs
      ensures AtOrUnder(TaskRoot(cfg, t), p)
    {
      if p != ManifestPath(cfg, t) {
        NewInArea(cfg, t, rels, p);
      }
    }
    hide CreateEffect;
    hide CopyEffect;
    hide Scan;
    hide OnRecord;
    hide AtOrUnder;
    InvHolds(cfg, fs, t, fs1, taken);
  }

  lemma InvHolds(cfg: Config, fs: FileSystem, t: TaskId, fs1: FileSystem, taken: map<TaskId, map<Path, Content>>)
    requires Inv(cfg, fs, taken) && WellFormed(fs1) && fs.dirs <= fs1.dirs
    requires OnRecord(cfg, fs1, t, Scan(cfg, fs))
             && forall u :: u in taken && u != t ==> OnRecord(cfg, fs1, u, taken[u])
    requires forall p :: (p in fs1.files || p in fs1.dirs) && Under(cfg.root, p) && p !in fs.files && p !in fs.dirs ==>
               AtOrUnder(TaskRoot(cfg, t), p)
    ensures Inv(cfg, fs1, taken[t := Scan(cfg, fs)])
  {
    hide OnRecord;
    hide Scan;
    hide AtOrUnder;
    hide Under;
    var taken1 := taken[t := Scan(cfg, fs)];
    forall p | (p in fs1.files || p in fs1.dirs) && Under(cfg.root, p)
      ensures exists u :: u in taken1 && AtOrUnder(TaskRoot(cfg, u), p)
    {
      if p in fs.files || p in fs.dirs {
        var u :| u in taken && AtOrUnder(TaskRoot(cfg, u), p);
        assert u in taken1;
      } else {
        assert t in taken1;
      }
    }
  }

  lemma NewInArea(cfg: Config, t: TaskId, rels: seq<Path>, p: Path)
    requires TaskName(t) && Under(cfg.root, p)
    requires p in Targets(FilesRoot(cfg, t), rels) + Parents(FilesRoot(cfg, t), rels)
                  + Ancestors(Join(FilesRoot(cfg, t), ""))
    ensures AtOrUnder(TaskRoot(cfg, t), p)
  {
    var root := FilesRoot(cfg, t);
    if p in Ancestors(Join(root, "")) {
      CopyInArea(cfg, t, "");
      AboveTask(cfg, t, p, Join(root, ""));
    } else {
      var r :| r in rels && AtOrUnder(p, Join(root, r));
      CopyInArea(cfg, t, r);
      AboveTask(cfg, t, p, Join(root, r));
    }
  }

  lemma TakenKept(cfg: Config, fs: FileSystem, t: TaskId, fs1: FileSystem, rels: seq<Path>, records: seq<Record>)
    requires WellFormed(fs) && cfg.root in fs.dirs && TaskName(t)
    requires forall r :: r in rels <==> r in Scan(cfg, fs)
    requires forall r :: r in rels ==> Join(cfg.workspace, r) in fs.files
    requires SavedOf(cfg, fs1, t) == Some(Saved(FilesRoot(cfg, t), records))
             && AsDict(records) == Digests(cfg, Scan(cfg, fs))
    requires var copied := fs.files + Placed(fs.files, cfg.workspace, FilesRoot(cfg, t), rels);
             fs1.files == copied[ManifestPath(cfg, t) := cfg.render(Saved(FilesRoot(cfg, t), records))]
    ensures OnRecord(cfg, fs1, t, Scan(cfg, fs))
  {
    hide *;
    forall r | r in Scan(cfg, fs)
      ensures Visible(cfg, Join(cfg.workspace, r)) && !Under(Join(cfg.workspace, r), cfg.root)
      ensures Join(FilesRoot(cfg, t), r) in fs1.files && fs1.files[Join(FilesRoot(cfg, t), r)] == Scan(cfg, fs)[r]
    {
      ScannedFile(cfg, fs, r);
      CopyPlaced(cfg, fs, FilesRoot(cfg, t), rels, r);
      CopyApart(cfg, t, r);
    }
    ScanNonNested(cfg, fs);
    IsOnRecord(cfg, fs1, t, Scan(cfg, fs));
  }

  lemma CopyApart(cfg: Config, t: TaskId, r: Path)
    ensures Join(FilesRoot(cfg, t), r) != ManifestPath(cfg, t)
  {
    ManifestApart(cfg, t, Join(FilesRoot(cfg, t), r));
  }

  lemma IsOnRecord(cfg: Config, fs: FileSystem, t: TaskId, files: map<Path, Content>)
    requires TaskName(t) && NonNested(files.Keys)
    requires forall r :: r in files ==>
               && Visible(cfg, Join(cfg.workspace, r)) && !Under(Join(cfg.workspace, r), cfg.root)
               && Join(FilesRoot(cfg, t), r) in fs.files && fs.files[Join(FilesRoot(cfg, t), r)] == files[r]
    requires SavedOf(cfg, fs, t).Some? && SavedOf(cfg, fs, t).value.filesRoot == FilesRoot(cfg, t)
    requires AsDict(SavedOf(cfg, fs, t).value.files) == Digests(cfg, files)
    ensures OnRecord(cfg, fs, t, files)
  {
    hide SavedOf;
    hide FilesRoot;
    hide Join;
  }

  lemma ScannedFile(cfg: Config, fs: FileSystem, r: Path)
    requires WellFormed(fs) && cfg.root in fs.dirs && r in Scan(cfg, fs)
    ensures var p := Join(cfg.workspace, r);
            Visible(cfg, p) && !Under(p, cfg.root) && p in fs.files && fs.files[p] == Scan(cfg, fs)[r]
  {
    ScanMeaning(cfg, fs, r);
    assert Ancestors(cfg.root) <= fs.dirs;
  }

  lemma CopyPlaced(cfg: Config, fs: FileSystem, root: Path, rels: seq<Path>, r: Path)
    requires r in rels && forall r :: r in rels ==> Join(cfg.workspace, r) in fs.files
    ensures var placed := Placed(fs.files, cfg.workspace, root, rels);
            Join(root, r) in placed && placed[Join(root, r)] == fs.files[Join(cfg.workspace, r)]
  {
    assert Join(root, r) in Targets(root, rels);
  }

  lemma OthersOnRecord(cfg: Config, fs: FileSystem, t: TaskId, fs1: FileSystem, rels: seq<Path>, records: seq<Record>,
                       files: map<Path, Content>, u: TaskId)
    requires OnRecord(cfg, fs, u, files) && TaskName(t) && u != t
    requires forall r :: r in rels ==> Join(cfg.workspace, r) in fs.files
    requires var copied := fs.files + Placed(fs.files, cfg.workspace, FilesRoot(cfg, t), rels);
             fs1.files == copied[ManifestPath(cfg, t) := cfg.render(Saved(FilesRoot(cfg, t), records))]
    ensures OnRecord(cfg, fs1, u, files)
  {
    forall p | Under(TaskRoot(cfg, u), p)
      ensures p !in Targets(FilesRoot(cfg, t), rels) && p != ManifestPath(cfg, t)
    {
      if p in Targets(FilesRoot(cfg, t), rels) {
        var q :| q in rels && p == Join(FilesRoot(cfg, t), q);
        CopyInArea(cfg, t, q);
        TaskAreasApart(cfg, t, u, p);
      } else if p == ManifestPath(cfg, t) {
        TaskAreasApart(cfg, t, u, p);
      }
    }
    hide OnRecord;
    RecordInSameArea(cfg, fs, fs1, u, files);
  }

  // ----- whole runs -----

  /** A run from a snapshot area that may already hold snapshots. */
  ghost predicate IsRun(cfg: Config, worlds: seq<FileSystem>, evs: seq<Event>, taken: map<TaskId, map<Path, Content>>) {
    && |worlds| == |evs| + 1 && Inv(cfg, worlds[0], taken)
    && forall i :: 0 <= i < |evs| ==> Next(cfg, worlds[i], evs[i], worlds[i + 1])
  }

  /** The files that each task's snapshot saw, one event later. */
  function Recorded(cfg: Config, fs: FileSystem, ev: Event, taken: map<TaskId, map<Path, Content>>)
    : map<TaskId, map<Path, Content>>
  {
    match ev
    case Took(t) => taken[t := Scan(cfg, fs)]
    case _ => taken
  }

  /** Every event keeps the invariant. */
  lemma StepKeepsInv(cfg: Config, fs: FileSystem, ev: Event, fs1: FileSystem, taken: map<TaskId, map<Path, Content>>)
    requires Inv(cfg, fs, taken) && Next(cfg, fs, ev, fs1)
    ensures Inv(cfg, fs1, Recorded(cfg, fs, ev, taken))
  {
    hide Inv;
    hide Scan;
    match ev
    case Took(t) => TookStep(cfg, fs, t, fs1, taken);
    case Edited => EditedStep(cfg, fs, fs1, taken);
    case RolledBack(t) => RollbackStep(cfg, fs, t, fs1, taken);
  }

  lemma TookStep(cfg: Config, fs: FileSystem, t: TaskId, fs1: FileSystem, taken: map<TaskId, map<Path, Content>>)
    requires Inv(cfg, fs, taken) && Next(cfg, fs, Took(t), fs1)
    ensures Inv(cfg, fs1, taken[t := Scan(cfg, fs)])
  {
    hide Inv;
    hide Taking;
    hide Scan;
    var rels, records, ok :| Taking(cfg, fs, t, fs1, rels, records, ok);
    TakeStep(cfg, fs, t, fs1, rels, records, ok, taken);
  }

  lemma EditedStep(cfg: Config, fs: FileSystem, fs1: FileSystem, taken: map<TaskId, map<Path, Content>>)
    requires Inv(cfg, fs, taken) && Next(cfg, fs, Edited, fs1)
    ensures Inv(cfg, fs1, taken)
  {
    hide Inv;
    SameAreaStep(cfg, fs, fs1, taken);
  }

  /** The files that each snapshot saw, of those there at first and those of the first `k` events. */
  function TakenBy(cfg: Config, worlds: seq<FileSystem>, evs: seq<Event>, taken: map<TaskId, map<Path, Content>>,
                   k: nat)
    : map<TaskId, map<Path, Content>>
    requires k <= |evs| < |worlds|
  {
    if k == 0 then taken
    else Recorded(cfg, worlds[k - 1], evs[k - 1], TakenBy(cfg, worlds, evs, taken, k - 1))
  }

  lemma {:induction false} RunKeepsInv(cfg: Config, worlds: seq<FileSystem>, evs: seq<Event>,
                                       taken: map<TaskId, map<Path, Content>>, k: nat)
    requires IsRun(cfg, worlds, evs, taken) && k <= |evs|
    ensures Inv(cfg, worlds[k], TakenBy(cfg, worlds, evs, taken, k))
  {
    hide Inv;
    hide Next;
    if k > 0 {
      RunKeepsInv(cfg, worlds, evs, taken, k - 1);
      assert Next(cfg, worlds[k - 1], evs[k - 1], worlds[k - 1 + 1]);
      StepKeepsInv(cfg, worlds[k - 1], evs[k - 1], worlds[k], TakenBy(cfg, worlds, evs, taken, k - 1));
    }
  }

  lemma TookIsFresh(cfg: Config, fs: FileSystem, t: TaskId, fs1: FileSystem, taken: map<TaskId, map<Path, Content>>)
    requires Inv(cfg, fs, taken) && Next(cfg, fs, Took(t), fs1)
    ensures t !in taken
  {
    hide Scan;
    hide CreateEffect;
    ManifestInArea(cfg, t);
    assert TaskRoot(cfg, t) in Ancestors(ManifestPath(cfg, t));
    assert t in taken ==> OnRecord(cfg, fs, t, taken[t]);
  }

  /** A snapshot on record at event `i` stays on record from then on. */
  lemma {:induction false} TakenStays(cfg: Config, worlds: seq<FileSystem>, evs: seq<Event>,
                                      taken: map<TaskId, map<Path, Content>>, t: TaskId, i: nat, k: nat)
    requires IsRun(cfg, worlds, evs, taken) && i <= k <= |evs| && t in TakenBy(cfg, worlds, evs, taken, i)
    ensures var taken1 := TakenBy(cfg, worlds, evs, taken, k);
            t in taken1 && taken1[t] == TakenBy(cfg, worlds, evs, taken, i)[t]
    decreases k
  {
    hide Next;
    hide Inv;
    hide Scan;
    if i < k {
      TakenStays(cfg, worlds, evs, taken, t, i, k - 1);
      RunKeepsInv(cfg, worlds, evs, taken, k - 1);
      assert Next(cfg, worlds[k - 1], evs[k - 1], worlds[k - 1 + 1]);
      if evs[k - 1].Took? {
        TookIsFresh(cfg, worlds[k - 1], evs[k - 1].task, worlds[k], TakenBy(cfg, worlds, evs, taken, k - 1));
      }
    }
  }

  /**
    The promise of a snapshot, over every run: rolling back a task at any later point, by its manifest file
    as it then is, gives the visible files the digests they had when its snapshot was taken if and only if
    no file to bring back is blocked by a directory or a file; and gives them their contents when the
    digest is injective.
   */
  lemma RollbackOverRuns(cfg: Config, worlds: seq<FileSystem>, evs: seq<Event>, taken: map<TaskId, map<Path, Content>>,
                         i: nat, d: Diff)
    requires IsRun(cfg, worlds, evs, taken) && i < |evs| && evs[i].Took?
    requires var fs, t := worlds[|evs|], evs[i].task;
             SavedOf(cfg, fs, t).Some? ==>
               IsDiff(d, AsDict(SavedOf(cfg, fs, t).value.files), Digests(cfg, Scan(cfg, fs)))
    ensures var fs, t, seen := worlds[|evs|], evs[i].task, Scan(cfg, worlds[i]);
            && SavedOf(cfg, fs, t).Some?
            && var e := RollbackEffect(cfg, SavedOf(cfg, fs, t).value.filesRoot, fs, d);
            && (Digests(cfg, Scan(cfg, e.fs)) == Digests(cfg, seen) <==> Unblocked(cfg, fs, d))
            && (Unblocked(cfg, fs, d) ==> e.ok)
            && (Unblocked(cfg, fs, d) && (forall x: Content, y: Content :: cfg.hash(x) == cfg.hash(y) ==> x == y)
                ==> Scan(cfg, e.fs) == seen)
  {
    hide *;
    RunLength(cfg, worlds, evs, taken);
    var fs, t, seen := worlds[|evs|], evs[i].task, Scan(cfg, worlds[i]);
    TakenAt(cfg, worlds, evs, taken, i);
    TakenStays(cfg, worlds, evs, taken, t, i + 1, |evs|);
    RunKeepsInv(cfg, worlds, evs, taken, |evs|);
    OnRecordIn(cfg, fs, TakenBy(cfg, worlds, evs, taken, |evs|), t);
    ReadyToRollBack(cfg, fs, t, seen, d);
    RollbackRestoresIff(cfg, t, fs, seen, d);
    if Unblocked(cfg, fs, d) {
      RollbackRestores(cfg, t, fs, seen, d);
      RollbackExact(cfg, t, fs, seen, d);
    }
  }

  lemma RunLength(cfg: Config, worlds: seq<FileSystem>, evs: seq<Event>, taken: map<TaskId, map<Path, Content>>)
    requires IsRun(cfg, worlds, evs, taken)
    ensures |worlds| == |evs| + 1
  {
  }

  lemma TakenAt(cfg: Config, worlds: seq<FileSystem>, evs: seq<Event>, taken: map<TaskId, map<Path, Content>>, i: nat)
    requires i < |evs| < |worlds| && evs[i].Took?
    ensures var taken1 := TakenBy(cfg, worlds, evs, taken, i + 1);
            evs[i].task in taken1 && taken1[evs[i].task] == Scan(cfg, worlds[i])
  {
    hide Scan;
  }

  lemma ReadyToRollBack(cfg: Config, fs: FileSystem, t: TaskId, files: map<Path, Content>, d: Diff)
    requires Hidden(cfg) && WellFormed(fs) && OnRecord(cfg, fs, t, files)
    requires SavedOf(cfg, fs, t).Some? ==>
               IsDiff(d, AsDict(SavedOf(cfg, fs, t).value.files), Digests(cfg, Scan(cfg, fs)))
    ensures SavedOf(cfg, fs, t).Some? && SavedOf(cfg, fs, t).value.filesRoot == FilesRoot(cfg, t)
    ensures Ready(cfg, t, fs, files, d)
  {
    hide SavedOf;
    hide IsDiff;
    hide Kept;
    hide Scan;
    hide FilesRoot;
  }

  lemma OnRecordIn(cfg: Config, fs: FileSystem, taken: map<TaskId, map<Path, Content>>, t: TaskId)
    requires Inv(cfg, fs, taken) && t in taken
    ensures Hidden(cfg) && WellFormed(fs) && OnRecord(cfg, fs, t, taken[t])
  {
  }
}
