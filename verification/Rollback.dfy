/**
  What rolling back achieves: exactly when it restores the snapshotted files, what it leaves alone, and
  that every snapshot stays restorable over any run of snapshots, edits and rollbacks.
 */
module Rollback {
  import opened Files
  import opened PathOrder
  import opened Snapshot

  /** A rollback of task `t`, whose snapshot held `files`, from the file system `fs`. */
  ghost predicate Ready(cfg: Config, t: TaskId, fs: FileSystem, files: map<Path, Content>, d: Diff) {
    && Hidden(cfg) && WellFormed(fs) && Kept(cfg, fs, t, files)
    && IsDiff(d, Digests(cfg, files), Digests(cfg, Scan(cfg, fs)))
  }

  ghost predicate Unblocked(cfg: Config, fs: FileSystem, d: Diff) {
    forall r :: r in d.deleted ==> !Blocked(cfg, fs, r)
  }

  function Restored(d: Diff): seq<Path> {
    d.deleted + d.changed
  }

  // ----- when nothing is in the way -----

  lemma RestorePlaceable(cfg: Config, t: TaskId, fs: FileSystem, files: map<Path, Content>, d: Diff)
    requires Ready(cfg, t, fs, files, d) && Unblocked(cfg, fs, d)
    ensures Placeable(fs, FilesRoot(cfg, t), cfg.workspace, Restored(d))
    ensures forall r :: r in Restored(d) ==> r in files
  {
    FilesRootHidden(cfg, t);
    forall r | r in Restored(d)
      ensures r in files && Free(fs, Join(cfg.workspace, r))
    {
      if r in d.changed {
        ScanMeaning(cfg, fs, r);
        FileIsFree(fs, Join(cfg.workspace, r));
      }
    }
    forall r, q | r in Restored(d) && q in Restored(d)
      ensures Join(FilesRoot(cfg, t), r) != Join(cfg.workspace, q)
    {
      assert AtOrUnder(FilesRoot(cfg, t), Join(FilesRoot(cfg, t), r));
      assert Visible(cfg, Join(cfg.workspace, q));
    }
  }

  lemma FileIsFree(fs: FileSystem, p: Path)
    requires WellFormed(fs) && p in fs.files
    ensures Free(fs, p)
  {
    assert Ancestors(p) <= fs.dirs;
    assert forall a :: a in Ancestors(p) * fs.files.Keys ==> a in fs.dirs && a in fs.files;
  }

  /** Unblocked, rollback succeeds; it overlays the restored files and removes the added ones, no more. */
  lemma RollbackExact(cfg: Config, t: TaskId, fs: FileSystem, files: map<Path, Content>, d: Diff)
    requires Ready(cfg, t, fs, files, d) && Unblocked(cfg, fs, d)
    ensures forall r :: r in Restored(d) ==> Join(FilesRoot(cfg, t), r) in fs.files
    ensures var e := RollbackEffect(cfg, FilesRoot(cfg, t), fs, d);
            && e.ok && WellFormed(e.fs)
            && e.fs.files == fs.files + Placed(fs.files, FilesRoot(cfg, t), cfg.workspace, Restored(d))
                             - Targets(cfg.workspace, d.added)
            && e.fs.dirs == fs.dirs + Parents(cfg.workspace, Restored(d))
  {
    RestorePlaceable(cfg, t, fs, files, d);
    PlaceAllFree(fs, FilesRoot(cfg, t), cfg.workspace, Restored(d));
    PlaceAllKeeps(fs, FilesRoot(cfg, t), cfg.workspace, Restored(d));
    var e := PlaceAll(fs, FilesRoot(cfg, t), cfg.workspace, Restored(d));
    forall p | p in Targets(cfg.workspace, d.added)
      ensures p !in e.fs.dirs
    {
      var r :| r in d.added && p == Join(cfg.workspace, r);
      ScanMeaning(cfg, fs, r);
      assert p in e.fs.files;
    }
    UnlinkAllEffect(e.fs, cfg.workspace, d.added);
    UnlinkAllTargets(e.fs, cfg.workspace, d.added);
    RollbackParts(cfg, FilesRoot(cfg, t), fs, d);
  }

  /** One path after an unblocked rollback. */
  lemma RollbackAt(cfg: Config, t: TaskId, fs: FileSystem, files: map<Path, Content>, d: Diff, r: Path)
    requires Ready(cfg, t, fs, files, d) && Unblocked(cfg, fs, d)
    ensures var after := Scan(cfg, RollbackEffect(cfg, FilesRoot(cfg, t), fs, d).fs);
            && (r in after <==> r in files)
            && (r in files ==> after[r] == if r in Restored(d) then files[r] else Scan(cfg, fs)[r])
    ensures r in files && r !in Restored(d) ==>
              r in Scan(cfg, fs) && cfg.hash(Scan(cfg, fs)[r]) == cfg.hash(files[r])
  {
    RollbackExact(cfg, t, fs, files, d);
    DiffAt(cfg, fs, files, d, r);
    RestoredContent(cfg, t, fs, files, d, r);
    var e := RollbackEffect(cfg, FilesRoot(cfg, t), fs, d);
    ScanMeaning(cfg, fs, r);
    ScanMeaning(cfg, e.fs, r);
    ScanContent(cfg, fs, r);
    ScanContent(cfg, e.fs, r);
    TargetOf(cfg, Restored(d), r);
    TargetOf(cfg, d.added, r);
    hide *;
  }

  /** Where one path stands in a diff. */
  lemma DiffAt(cfg: Config, fs: FileSystem, files: map<Path, Content>, d: Diff, r: Path)
    requires IsDiff(d, Digests(cfg, files), Digests(cfg, Scan(cfg, fs)))
    ensures r in d.added <==> r !in files && r in Scan(cfg, fs)
    ensures r in Restored(d) <==>
              r in files && (r !in Scan(cfg, fs) || cfg.hash(files[r]) != cfg.hash(Scan(cfg, fs)[r]))
  {
    hide Scan;
    assert r in Digests(cfg, files) <==> r in files;
    assert r in Digests(cfg, Scan(cfg, fs)) <==> r in Scan(cfg, fs);
  }

  lemma ScanContent(cfg: Config, fs: FileSystem, r: Path)
    ensures r in Scan(cfg, fs) ==>
              Join(cfg.workspace, r) in fs.files && Scan(cfg, fs)[r] == fs.files[Join(cfg.workspace, r)]
  {
  }

  lemma RestoredContent(cfg: Config, t: TaskId, fs: FileSystem, files: map<Path, Content>, d: Diff, r: Path)
    requires Ready(cfg, t, fs, files, d)
    requires forall q :: q in Restored(d) ==> Join(FilesRoot(cfg, t), q) in fs.files
    ensures var placed := Placed(fs.files, FilesRoot(cfg, t), cfg.workspace, Restored(d));
            var p := Join(cfg.workspace, r);
            && placed.Keys == Targets(cfg.workspace, Restored(d))
            && (p in placed && r in files ==> placed[p] == files[r])
            && (r in files ==> Visible(cfg, p))
  {
    hide Scan;
    hide IsDiff;
    assert Rel(cfg.workspace, Join(cfg.workspace, r)) == r;
  }

  lemma TargetOf(cfg: Config, rels: seq<Path>, r: Path)
    ensures Join(cfg.workspace, r) in Targets(cfg.workspace, rels) <==> r in rels
  {
    if Join(cfg.workspace, r) in Targets(cfg.workspace, rels) {
      var q :| q in rels && Join(cfg.workspace, r) == Join(cfg.workspace, q);
      JoinUnder(cfg.workspace, r, q);
    }
  }

  /**
    Unblocked, the manifest of the workspace becomes the snapshot's, whatever the digest; and the files
    themselves become the snapshot's when the digest tells the contents involved apart.
   */
  lemma RollbackRestores(cfg: Config, t: TaskId, fs: FileSystem, files: map<Path, Content>, d: Diff)
    requires Ready(cfg, t, fs, files, d) && Unblocked(cfg, fs, d)
    ensures var after := Scan(cfg, RollbackEffect(cfg, FilesRoot(cfg, t), fs, d).fs);
            && Digests(cfg, after) == Digests(cfg, files)
            && ((forall x: Content, y: Content :: cfg.hash(x) == cfg.hash(y) ==> x == y) ==> after == files)
  {
    var after := Scan(cfg, RollbackEffect(cfg, FilesRoot(cfg, t), fs, d).fs);
    hide Scan;
    hide RollbackEffect;
    hide Ready;
    hide Unblocked;
    forall r
      ensures r in after <==> r in files
      ensures r in files ==> cfg.hash(after[r]) == cfg.hash(files[r])
    {
      RollbackAt(cfg, t, fs, files, d, r);
    }
    assert after.Keys == files.Keys;
  }

  // ----- when something is in the way -----

  /** A blocked file is still missing after the rollback. */
  lemma BlockedStaysMissing(cfg: Config, t: TaskId, fs: FileSystem, files: map<Path, Content>, d: Diff, r: Path)
    requires Ready(cfg, t, fs, files, d) && r in d.deleted && Blocked(cfg, fs, r)
    ensures r !in Scan(cfg, RollbackEffect(cfg, FilesRoot(cfg, t), fs, d).fs)
  {
    var p := Join(cfg.workspace, r);
    var placed := PlaceAll(fs, FilesRoot(cfg, t), cfg.workspace, Restored(d));
    PlaceAllKeeps(fs, FilesRoot(cfg, t), cfg.workspace, Restored(d));
    RollbackParts(cfg, FilesRoot(cfg, t), fs, d);
    UnlinkAllEffect(placed.fs, cfg.workspace, d.added);
    var e := RollbackEffect(cfg, FilesRoot(cfg, t), fs, d);
    ScanMeaning(cfg, e.fs, r);
    if p !in fs.dirs {
      assert r in Restored(d);
      var a :| a in Ancestors(p) * fs.files.Keys;
      assert !placed.ok && a in e.fs.files;
    }
  }

  /**
    Rollback brings the snapshotted manifest back if and only if no file it has to bring back is now a
    directory or lies below what is now a file.
   */
  lemma RollbackRestoresIff(cfg: Config, t: TaskId, fs: FileSystem, files: map<Path, Content>, d: Diff)
    requires Ready(cfg, t, fs, files, d)
    ensures Digests(cfg, Scan(cfg, RollbackEffect(cfg, FilesRoot(cfg, t), fs, d).fs)) == Digests(cfg, files)
       <==> Unblocked(cfg, fs, d)
  {
    if Unblocked(cfg, fs, d) {
      RollbackRestores(cfg, t, fs, files, d);
    } else {
      var r :| r in d.deleted && Blocked(cfg, fs, r);
      BlockedStaysMissing(cfg, t, fs, files, d, r);
      assert r in Digests(cfg, files);
    }
  }

  /** After an unblocked rollback, a second one finds nothing to do. */
  lemma SecondRollbackIdle(cfg: Config, t: TaskId, fs: FileSystem, files: map<Path, Content>, d: Diff, d2: Diff)
    requires Ready(cfg, t, fs, files, d) && Unblocked(cfg, fs, d)
    requires IsDiff(d2, Digests(cfg, files), Digests(cfg, Scan(cfg, RollbackEffect(cfg, FilesRoot(cfg, t), fs, d).fs)))
    ensures d2 == Diff([], [], [])
    ensures var e := RollbackEffect(cfg, FilesRoot(cfg, t), fs, d);
            RollbackEffect(cfg, FilesRoot(cfg, t), e.fs, d2) == Effect(e.fs, true)
  {
    RollbackRestores(cfg, t, fs, files, d);
    var m := Digests(cfg, files);
    NothingTouched(m, m);
    EmptySort(d2.added, Added(m, m));
    EmptySort(d2.deleted, Deleted(m, m));
    EmptySort(d2.changed, Changed(m, m));
  }

  lemma EmptySort(r: seq<string>, s: set<string>)
    requires Sorts(r, s) && s == {}
    ensures r == []
  {
    SortsUnique(r, [], s);
  }

  // ----- what is left alone -----

  lemma KeepsWellFormed(cfg: Config, from: Path, fs: FileSystem, d: Diff)
    requires WellFormed(fs)
    ensures WellFormed(RollbackEffect(cfg, from, fs, d).fs)
  {
    RollbackParts(cfg, from, fs, d);
    hide *;
    PlaceAllKeeps(fs, from, cfg.workspace, d.deleted + d.changed);
    UnlinkAllEffect(PlaceAll(fs, from, cfg.workspace, d.deleted + d.changed).fs, cfg.workspace, d.added);
  }

  /** Whatever comes of it, a rollback leaves alone each path on which no copy lands and which is not to be unlinked. */
  lemma RollbackFrame(cfg: Config, from: Path, fs: FileSystem, m: Manifest, d: Diff, p: Path)
    requires WellFormed(fs) && NonNested(m.Keys) && IsDiff(d, m, Digests(cfg, Scan(cfg, fs)))
    requires p !in Landings(fs, from, cfg.workspace, Restored(d)) + Targets(cfg.workspace, d.added)
    ensures var e := RollbackEffect(cfg, from, fs, d);
            (p in e.fs.files <==> p in fs.files) && (p in fs.files ==> e.fs.files[p] == fs.files[p])
  {
    hide Landing;
    hide Scan;
    RestoredUnnested(cfg, fs, m, d);
    RollbackParts(cfg, from, fs, d);
    PlaceAllLandings(fs, from, cfg.workspace, Restored(d), p);
    PlaceAllKeeps(fs, from, cfg.workspace, Restored(d));
    hide PlaceAll;
    hide UnlinkAll;
    UnlinkAllEffect(PlaceAll(fs, from, cfg.workspace, Restored(d)).fs, cfg.workspace, d.added);
    assert forall r :: r in d.added ==> Join(cfg.workspace, r) in Targets(cfg.workspace, d.added);
  }

  /** What is restored comes from the manifest, so it is unnested; and no file is listed twice. */
  lemma RestoredUnnested(cfg: Config, fs: FileSystem, m: Manifest, d: Diff)
    requires NonNested(m.Keys) && IsDiff(d, m, Digests(cfg, Scan(cfg, fs)))
    ensures Unnested(Restored(d)) && forall r :: r in Restored(d) ==> r in m
    ensures forall i, j :: 0 <= i < j < |Restored(d)| ==> Restored(d)[i] != Restored(d)[j]
  {
    hide Scan;
    hide Under;
    var now := Digests(cfg, Scan(cfg, fs));
    SortedDistinct(d.deleted, Deleted(m, now));
    SortedDistinct(d.changed, Changed(m, now));
  }

  lemma SortedDistinct(r: seq<string>, s: set<string>)
    requires Sorts(r, s)
    ensures forall i, j :: 0 <= i < j < |r| ==> r[i] != r[j]
    ensures forall i :: 0 <= i < |r| ==> r[i] in s
  {
    forall i, j | 0 <= i < j < |r|
      ensures r[i] != r[j]
    {
      LessTotal(r[i], r[j]);
    }
  }

  /** Also when it raises or copies into a directory, a rollback touches nothing in the snapshot area. */
  lemma SnapshotAreaKept(cfg: Config, t: TaskId, fs: FileSystem, files: map<Path, Content>, d: Diff, p: Path)
    requires Ready(cfg, t, fs, files, d) && AtOrUnder(cfg.root, p)
    ensures var e := RollbackEffect(cfg, FilesRoot(cfg, t), fs, d);
            && (p in e.fs.files <==> p in fs.files) && (p in fs.files ==> e.fs.files[p] == fs.files[p])
            && (p in e.fs.dirs <==> p in fs.dirs)
  {
    var rels := Restored(d);
    forall r | r in rels
      ensures !AtOrUnder(Join(cfg.workspace, r), p) && !Under(p, Join(cfg.workspace, r))
    {
      assert r in Digests(cfg, files);
      TargetOutside(cfg, Join(cfg.workspace, r), p);
    }
    PlaceAllFrame(fs, FilesRoot(cfg, t), cfg.workspace, rels, p);
    PlaceAllKeeps(fs, FilesRoot(cfg, t), cfg.workspace, rels);
    PlaceAllDirs(fs, FilesRoot(cfg, t), cfg.workspace, rels);
    RollbackParts(cfg, FilesRoot(cfg, t), fs, d);
    UnlinkAllEffect(PlaceAll(fs, FilesRoot(cfg, t), cfg.workspace, rels).fs, cfg.workspace, d.added);
    forall r | r in d.added
      ensures Join(cfg.workspace, r) != p
    {
      ScanMeaning(cfg, fs, r);
    }
  }

  lemma TargetOutside(cfg: Config, target: Path, p: Path)
    requires Hidden(cfg) && Visible(cfg, target) && !Under(target, cfg.root) && AtOrUnder(cfg.root, p)
    ensures !AtOrUnder(target, p) && !Under(p, target)
  {
    if Under(p, target) && p != cfg.root {
      UnderTransitive(cfg.root, p, target);
    }
    if Under(target, p) && p != cfg.root {
      UnderLinear(target, cfg.root, p);
    }
  }
}
