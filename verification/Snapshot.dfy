/**
  The snapshot manager of `lobster_security/lobster_security/snapshot.py`: a manifest of digests and a
  copy of every visible file when a task starts, the diff of the workspace against it, and rollback.
 */
module Snapshot {
  import opened Basics
  import opened Files
  import opened PathOrder

  type TaskId = string

  /** One entry of a manifest, and what a manifest file holds: where the copies are, and the entries. */
  datatype Record = Record(path: Path, sha256: string)
  datatype Saved = Saved(filesRoot: Path, files: seq<Record>)

  /** Where the workspace and the snapshots live, the digest in use, and how manifest files are written and read. */
  datatype Config = Config(
    workspace: Path, root: Path, hash: Content -> string,
    render: Saved -> Content, parse: Content -> Option<Saved>)

  /** What was written as a manifest file is read back. */
  ghost predicate Faithful(cfg: Config) {
    forall s :: cfg.parse(cfg.render(s)) == Some(s)
  }

  predicate Excluded(p: Path) {
    Includes(p, ".lobster-security/snapshots") || Includes(p, ".lobster-security/audit")
  }

  /** The paths that a scan of the workspace reports, when they are files. */
  predicate Visible(cfg: Config, p: Path) {
    Under(cfg.workspace, p) && !Excluded(p)
  }

  /** No path in the snapshot area is reported by a scan of the workspace. */
  ghost predicate Hidden(cfg: Config) {
    forall p :: AtOrUnder(cfg.root, p) ==> !Visible(cfg, p)
  }

  /** The area is hidden when its own path is excluded, or when it lies apart from the workspace. */
  lemma HiddenRoot(cfg: Config)
    requires Excluded(cfg.root)
          || (cfg.root != cfg.workspace && !Under(cfg.workspace, cfg.root) && !Under(cfg.root, cfg.workspace))
    ensures Hidden(cfg)
  {
    forall p | AtOrUnder(cfg.root, p)
      ensures !Visible(cfg, p)
    {
      assert cfg.root <= p;
      if Excluded(cfg.root) {
        ExcludedBelow(cfg.root, p);
      } else if Under(cfg.workspace, p) {
        UnderLinear(cfg.workspace, cfg.root, p);
      }
    }
  }

  lemma ExcludedBelow(s: string, p: string)
    requires s <= p && Excluded(s)
    ensures Excluded(p)
  {
    if Includes(s, ".lobster-security/snapshots") {
      IncludedStill(".lobster-security/snapshots", s, p);
    } else {
      IncludedStill(".lobster-security/audit", s, p);
    }
  }

  lemma {:induction false} IncludedStill(part: string, s: string, p: string)
    requires s <= p && Includes(s, part)
    ensures Includes(p, part)
  {
    if !(part <= s) {
      IncludedStill(part, s[1..], p[1..]);
    }
  }

  /** One of the two names of the security areas starts in `p` at `i`. */
  predicate Named(p: Path, i: nat)
    requires i <= |p|
  {
    ".lobster-security/snapshots" <= p[i..] || ".lobster-security/audit" <= p[i..]
  }

  /** The visible paths are those below the workspace with neither name in them, and no others. */
  lemma VisibleMeaning(cfg: Config, p: Path)
    ensures Visible(cfg, p) <==> Under(cfg.workspace, p) && forall i :: 0 <= i <= |p| ==> !Named(p, i)
  {
    IncludesMeaning(p, ".lobster-security/snapshots");
    IncludesMeaning(p, ".lobster-security/audit");
    hide Includes;
    if i :| 0 <= i <= |p| && ".lobster-security/snapshots" <= p[i..] {
      assert Named(p, i);
    }
    if i :| 0 <= i <= |p| && ".lobster-security/audit" <= p[i..] {
      assert Named(p, i);
    }
  }

  // ----- scans, manifests and diffs -----

  function VisibleRels(cfg: Config, fs: FileSystem): set<Path> {
    set p | p in fs.files && Visible(cfg, p) :: Rel(cfg.workspace, p)
  }

  /** The visible files of the workspace by relative path, with their contents. */
  function Scan(cfg: Config, fs: FileSystem): map<Path, Content> {
    map r | r in VisibleRels(cfg, fs) && Join(cfg.workspace, r) in fs.files :: fs.files[Join(cfg.workspace, r)]
  }

  lemma ScanMeaning(cfg: Config, fs: FileSystem, r: Path)
    ensures r in Scan(cfg, fs) <==> Visible(cfg, Join(cfg.workspace, r)) && Join(cfg.workspace, r) in fs.files
    ensures Scan(cfg, fs).Keys == VisibleRels(cfg, fs)
  {
    if Visible(cfg, Join(cfg.workspace, r)) && Join(cfg.workspace, r) in fs.files {
      assert Rel(cfg.workspace, Join(cfg.workspace, r)) == r;
    }
    forall q | q in VisibleRels(cfg, fs)
      ensures Join(cfg.workspace, q) in fs.files
    {
    }
  }

  /** The manifest of a scan has every file of the workspace outside the security areas, with its digest, no other. */
  lemma ManifestMeaning(cfg: Config, fs: FileSystem, r: Path)
    ensures var p := Join(cfg.workspace, r);
            && (r in Digests(cfg, Scan(cfg, fs)) <==> p in fs.files && forall i :: 0 <= i <= |p| ==> !Named(p, i))
            && (r in Digests(cfg, Scan(cfg, fs)) ==> Digests(cfg, Scan(cfg, fs))[r] == cfg.hash(fs.files[p]))
  {
    ScanMeaning(cfg, fs, r);
    VisibleMeaning(cfg, Join(cfg.workspace, r));
    hide Visible, Named;
  }

  /** No scanned file lies below another. */
  lemma ScanNonNested(cfg: Config, fs: FileSystem)
    requires WellFormed(fs)
    ensures NonNested(Scan(cfg, fs).Keys)
  {
    forall a, b | a in Scan(cfg, fs) && b in Scan(cfg, fs)
      ensures !Under(a, b)
    {
      ScanMeaning(cfg, fs, a);
      ScanMeaning(cfg, fs, b);
      JoinUnder(cfg.workspace, a, b);
      assert Ancestors(Join(cfg.workspace, b)) <= fs.dirs;
    }
  }

  type Manifest = map<Path, string>

  function Digests(cfg: Config, files: map<Path, Content>): Manifest {
    map r | r in files :: cfg.hash(files[r])
  }

  /** The dictionary from path to digest that a list of records stands for; a later record wins. */
  function AsDict(records: seq<Record>): Manifest {
    if records == [] then map[]
    else
      var last := records[|records| - 1];
      AsDict(records[..|records| - 1])[last.path := last.sha256]
  }

  datatype Diff = Diff(added: seq<Path>, deleted: seq<Path>, changed: seq<Path>)

  function Added(before: Manifest, after: Manifest): set<Path> {
    after.Keys - before.Keys
  }

  function Deleted(before: Manifest, after: Manifest): set<Path> {
    before.Keys - after.Keys
  }

  function Changed(before: Manifest, after: Manifest): set<Path> {
    set r | r in before && r in after && before[r] != after[r]
  }

  /** The paths on which two manifests differ. */
  function Touched(before: Manifest, after: Manifest): set<Path> {
    Added(before, after) + Deleted(before, after) + Changed(before, after)
  }

  ghost predicate IsDiff(d: Diff, before: Manifest, after: Manifest) {
    && Sorts(d.added, Added(before, after))
    && Sorts(d.deleted, Deleted(before, after))
    && Sorts(d.changed, Changed(before, after))
  }

  lemma NothingTouched(before: Manifest, after: Manifest)
    ensures Touched(before, after) == {} <==> before == after
  {
    if Touched(before, after) == {} {
      assert forall r :: r in before && r !in after ==> r in Touched(before, after);
      assert forall r :: r in after && r !in before ==> r in Touched(before, after);
      assert forall r :: r in before && r in after && before[r] != after[r] ==> r in Touched(before, after);
      assert before.Keys == after.Keys;
    }
  }

  // ----- rollback -----

  /** Where the manifest and the copies of a task live. */
  function TaskRoot(cfg: Config, t: TaskId): Path {
    Join(cfg.root, t)
  }

  function FilesRoot(cfg: Config, t: TaskId): Path {
    Join(TaskRoot(cfg, t), "files")
  }

  function ManifestPath(cfg: Config, t: TaskId): Path {
    Join(TaskRoot(cfg, t), "manifest.json")
  }

  /** `_load_manifest`: what the task's manifest file holds now; nothing when it is missing or unreadable. */
  function SavedOf(cfg: Config, fs: FileSystem, t: TaskId): Option<Saved> {
    if ManifestPath(cfg, t) in fs.files then cfg.parse(fs.files[ManifestPath(cfg, t)]) else None
  }

  /** Copy back from `from` what was deleted or changed; when that succeeds, unlink what was added. */
  function RollbackEffect(cfg: Config, from: Path, fs: FileSystem, d: Diff): Effect {
    var restored := PlaceAll(fs, from, cfg.workspace, d.deleted + d.changed);
    if restored.ok then UnlinkAll(restored.fs, cfg.workspace, d.added) else restored
  }

  lemma RollbackParts(cfg: Config, from: Path, fs: FileSystem, d: Diff)
    ensures var restored := PlaceAll(fs, from, cfg.workspace, d.deleted + d.changed);
            && (restored.ok ==> RollbackEffect(cfg, from, fs, d) == UnlinkAll(restored.fs, cfg.workspace, d.added))
            && (!restored.ok ==> RollbackEffect(cfg, from, fs, d) == restored)
  {
  }

  /** Make the files root of `t`, place the workspace files `rels` below it, and write the manifest file. */
  function CreateEffect(cfg: Config, t: TaskId, fs: FileSystem, rels: seq<Path>, records: seq<Record>): Effect {
    var copied := CopyEffect(cfg, t, fs, rels);
    if copied.ok then Write(copied.fs, ManifestPath(cfg, t), cfg.render(Saved(FilesRoot(cfg, t), records))) else copied
  }

  function CopyEffect(cfg: Config, t: TaskId, fs: FileSystem, rels: seq<Path>): Effect {
    var made := MakeDir(fs, FilesRoot(cfg, t));
    if made.ok then PlaceAll(made.fs, cfg.workspace, FilesRoot(cfg, t), rels) else made
  }

  lemma FilesRootHidden(cfg: Config, t: TaskId)
    requires Hidden(cfg)
    ensures forall p :: AtOrUnder(FilesRoot(cfg, t), p) ==> Under(cfg.root, p) && !Visible(cfg, p)
  {
    forall p | AtOrUnder(FilesRoot(cfg, t), p)
      ensures Under(cfg.root, p)
    {
      UnderTransitive(cfg.root, TaskRoot(cfg, t), FilesRoot(cfg, t));
      if p != FilesRoot(cfg, t) {
        UnderTransitive(cfg.root, FilesRoot(cfg, t), p);
      }
    }
  }

  lemma ScanOfSameFiles(cfg: Config, fs: FileSystem, fs1: FileSystem)
    requires fs.files == fs1.files
    ensures Scan(cfg, fs) == Scan(cfg, fs1)
  {
  }

  /** A deleted file cannot come back where a directory now stands, or below what is now a file. */
  predicate Blocked(cfg: Config, fs: FileSystem, r: Path) {
    !Free(fs, Join(cfg.workspace, r))
  }

  /** The copies of task `t` hold `files`, as its snapshot left them. */
  ghost predicate Kept(cfg: Config, fs: FileSystem, t: TaskId, files: map<Path, Content>) {
    && NonNested(files.Keys)
    && forall r :: r in files ==>
         && Visible(cfg, Join(cfg.workspace, r)) && !Under(Join(cfg.workspace, r), cfg.root)
         && Join(FilesRoot(cfg, t), r) in fs.files
         && fs.files[Join(FilesRoot(cfg, t), r)] == files[r]
  }

  class SnapshotManager {
    const cfg: Config
    var fs: FileSystem

    /** `__init__` makes the snapshot root, or finds one with snapshots; it raises when a file is in the way. */
    constructor (cfg: Config, fs: FileSystem)
      requires WellFormed(fs) && MakeDir(fs, cfg.root).ok
      ensures this.cfg == cfg && this.fs == MakeDir(fs, cfg.root).fs
      ensures WellFormed(this.fs) && cfg.root in this.fs.dirs && this.fs.files == fs.files
    {
      this.cfg := cfg;
      this.fs := MakeDir(fs, cfg.root).fs;
      new;
      MakeParentsWellFormed(fs, Join(cfg.root, ""));
      MakeDirMeaning(fs, cfg.root);
    }

    /**
      `_scan_workspace`: digests of all visible files, each also copied below `copyTo` when one is given.
      It can only fail (by an exception) while copying.
     */
    method ScanWorkspace(copyTo: Option<Path>) returns (manifest: seq<Record>, ok: bool, ghost rels: seq<Path>)
      requires WellFormed(fs)
      requires copyTo.Some? ==> forall p :: AtOrUnder(copyTo.value, p) ==> !Visible(cfg, p)
      modifies this`fs
      ensures copyTo.None? ==> ok && fs == old(fs)
      ensures ok ==> AsDict(manifest) == Digests(cfg, Scan(cfg, old(fs)))
      ensures forall r :: r in rels ==> r in Scan(cfg, old(fs))
      ensures ok ==> forall r :: r in Scan(cfg, old(fs)) ==> r in rels
      ensures copyTo.Some? ==> Effect(fs, ok) == PlaceAll(old(fs), cfg.workspace, copyTo.value, rels)
    {
      manifest, ok, rels := [], true, [];
      ghost var files := Scan(cfg, fs);
      var listing := Sort(fs.files.Keys + fs.dirs);
      ScanStart(cfg, fs, copyTo);
      hide *;
      for i := 0 to |listing|
        invariant ok && Scanning(cfg, old(fs), fs, copyTo, manifest, rels)
        invariant forall r :: r in files && Join(cfg.workspace, r) in listing[..i] ==> r in rels
      {
        var p := listing[i];
        assert listing[..i + 1] == listing[..i] + [p];
        ScannedPath(cfg, old(fs), fs, copyTo, manifest, rels, p);
        if !Visible(cfg, p) || p in fs.dirs || p !in fs.files {
          continue;
        }
        var r := Rel(cfg.workspace, p);
        manifest := manifest + [Record(r, cfg.hash(fs.files[p]))];
        rels := rels + [r];
        if copyTo.Some? {
          var copied := Place(fs, p, Join(copyTo.value, r));
          fs := copied.fs;
          if !copied.ok {
            return manifest, false, rels;
          }
        }
      }
      AllScanned(cfg, old(fs), fs, copyTo, manifest, rels, listing);
    }

    /** `create_snapshot`: make the files root, copy the visible files there, then write the manifest file. */
    method CreateSnapshot(t: TaskId) returns (ok: bool, ghost rels: seq<Path>, ghost records: seq<Record>)
      requires WellFormed(fs) && Hidden(cfg)
      modifies this`fs
      ensures forall r :: r in rels ==> r in Scan(cfg, old(fs))
      ensures ok ==> forall r :: r in Scan(cfg, old(fs)) ==> r in rels
      ensures ok ==> AsDict(records) == Digests(cfg, Scan(cfg, old(fs)))
      ensures Effect(fs, ok) == CreateEffect(cfg, t, old(fs), rels, records)
    {
      var filesRoot := FilesRoot(cfg, t);
      var made := MakeDir(fs, filesRoot);
      MakeParentsWellFormed(fs, Join(filesRoot, ""));
      FilesRootHidden(cfg, t);
      ScanOfSameFiles(cfg, fs, made.fs);
      fs := made.fs;
      rels, records := [], [];
      if !made.ok {
        return false, rels, records;
      }
      hide Scan;
      hide PlaceAll;
      hide AsDict;
      var manifest;
      manifest, ok, rels := ScanWorkspace(Some(filesRoot));
      records := manifest;
      if ok {
        var written := Write(fs, ManifestPath(cfg, t), cfg.render(Saved(filesRoot, manifest)));
        fs := written.fs;
        ok := written.ok;
      }
    }

    /** `diff_snapshot`; without a readable manifest file it raises, and there is no diff. */
    method DiffSnapshot(t: TaskId) returns (r: Option<Diff>)
      requires WellFormed(fs)
      modifies this`fs
      ensures fs == old(fs)
      ensures r.Some? <==> SavedOf(cfg, fs, t).Some?
      ensures r.Some? ==> IsDiff(r.value, AsDict(SavedOf(cfg, fs, t).value.files), Digests(cfg, Scan(cfg, fs)))
    {
      var saved := SavedOf(cfg, fs, t);
      if saved.None? {
        return None;
      }
      var before := AsDict(saved.value.files);
      var current, _, _ := ScanWorkspace(None);
      var after := AsDict(current);
      var added := Sort(Added(before, after));
      var deleted := Sort(Deleted(before, after));
      var changed := Sort(Changed(before, after));
      r := Some(Diff(added, deleted, changed));
    }

    /**
      `rollback_snapshot`. `d` is the diff it acts on; `r` is what it returns, or nothing when it raises,
      for lack of a manifest or in the middle of its work.
     */
    method RollbackSnapshot(t: TaskId, dryRun: bool) returns (r: Option<Diff>, ghost d: Diff)
      requires WellFormed(fs)
      modifies this`fs
      ensures var saved := SavedOf(cfg, old(fs), t);
              && (saved.None? ==> r.None? && fs == old(fs))
              && (saved.Some? ==> IsDiff(d, AsDict(saved.value.files), Digests(cfg, Scan(cfg, old(fs)))))
              && (saved.Some? && dryRun ==> r == Some(d) && fs == old(fs))
              && (saved.Some? && !dryRun ==>
                    Effect(fs, r.Some?) == RollbackEffect(cfg, saved.value.filesRoot, old(fs), d)
                    && (r.Some? ==> r == Some(d)))
    {
      d := Diff([], [], []);
      var saved := SavedOf(cfg, fs, t);
      r := DiffSnapshot(t);
      if r.None? {
        return;
      }
      var diff := r.value;
      d := diff;
      if dryRun {
        return;
      }
      RollbackParts(cfg, saved.value.filesRoot, fs, d);
      hide *;
      var ok := CopyBack(saved.value.filesRoot, diff.deleted + diff.changed);
      if ok {
        ok := RemoveAdded(diff.added);
      }
      if !ok {
        r := None;
      }
    }

    /** Its first loop. */
    method CopyBack(from: Path, paths: seq<Path>) returns (ok: bool)
      modifies this`fs
      ensures Effect(fs, ok) == PlaceAll(old(fs), from, cfg.workspace, paths)
    {
      hide *;
      assert paths[0..] == paths;
      for i := 0 to |paths|
        invariant PlaceAll(fs, from, cfg.workspace, paths[i..]) == PlaceAll(old(fs), from, cfg.workspace, paths)
      {
        PlaceAllHead(fs, from, cfg.workspace, paths[i..]);
        assert paths[i..][1..] == paths[i + 1..] && paths[i..][0] == paths[i];
        var placed := Place(fs, Join(from, paths[i]), Join(cfg.workspace, paths[i]));
        fs := placed.fs;
        if !placed.ok {
          return false;
        }
      }
      PlaceAllHead(fs, from, cfg.workspace, paths[|paths|..]);
      ok := true;
    }

    /** Its second loop. */
    method RemoveAdded(paths: seq<Path>) returns (ok: bool)
      modifies this`fs
      ensures Effect(fs, ok) == UnlinkAll(old(fs), cfg.workspace, paths)
    {
      hide *;
      assert paths[0..] == paths;
      for i := 0 to |paths|
        invariant UnlinkAll(fs, cfg.workspace, paths[i..]) == UnlinkAll(old(fs), cfg.workspace, paths)
      {
        UnlinkAllHead(fs, cfg.workspace, paths[i..]);
        assert paths[i..][1..] == paths[i + 1..] && paths[i..][0] == paths[i];
        var unlinked := Unlink(fs, Join(cfg.workspace, paths[i]));
        fs := unlinked.fs;
        if !unlinked.ok {
          return false;
        }
      }
      UnlinkAllHead(fs, cfg.workspace, paths[|paths|..]);
      ok := true;
    }
  }

  /** A created manifest file is the one that is loaded afterwards. */
  lemma CreatedManifest(cfg: Config, t: TaskId, fs: FileSystem, rels: seq<Path>, records: seq<Record>)
    requires Faithful(cfg) && CreateEffect(cfg, t, fs, rels, records).ok
    ensures SavedOf(cfg, CreateEffect(cfg, t, fs, rels, records).fs, t) == Some(Saved(FilesRoot(cfg, t), records))
  {
    hide CopyEffect;
  }

  /** What a scan keeps while it runs: the records of `rels`, their copies, and every visible file as it was. */
  ghost predicate Scanning(cfg: Config, fs0: FileSystem, fs: FileSystem, copyTo: Option<Path>,
                           records: seq<Record>, rels: seq<Path>) {
    && WellFormed(fs) && fs0.dirs <= fs.dirs
    && Unseen(cfg, fs0, fs)
    && (copyTo.None? ==> fs == fs0)
    && (copyTo.Some? ==> PlaceAll(fs0, cfg.workspace, copyTo.value, rels) == Effect(fs, true))
    && Recorded(cfg, records, rels, Scan(cfg, fs0))
  }

  lemma ScanStart(cfg: Config, fs: FileSystem, copyTo: Option<Path>)
    requires WellFormed(fs)
    ensures Scanning(cfg, fs, fs, copyTo, [], [])
  {
  }

  /** One listed path: it is skipped exactly when the scan does not report it, else recorded and copied. */
  lemma ScannedPath(cfg: Config, fs0: FileSystem, fs: FileSystem, copyTo: Option<Path>,
                    records: seq<Record>, rels: seq<Path>, p: Path)
    requires Scanning(cfg, fs0, fs, copyTo, records, rels)
    requires copyTo.Some? ==> forall p :: AtOrUnder(copyTo.value, p) ==> !Visible(cfg, p)
    ensures forall r :: r in Scan(cfg, fs0) && Join(cfg.workspace, r) == p ==>
              Visible(cfg, p) && p in fs.files && p !in fs.dirs && r == Rel(cfg.workspace, p)
    ensures Visible(cfg, p) && p in fs.files ==>
              var r := Rel(cfg.workspace, p);
              var more := records + [Record(r, cfg.hash(fs.files[p]))];
              && r in Scan(cfg, fs0)
              && (copyTo.None? ==> Scanning(cfg, fs0, fs, copyTo, more, rels + [r]))
              && (copyTo.Some? ==>
                    var e := Place(fs, p, Join(copyTo.value, r));
                    && PlaceAll(fs0, cfg.workspace, copyTo.value, rels + [r]) == e
                    && Recorded(cfg, more, rels + [r], Scan(cfg, fs0))
                    && (e.ok ==> Scanning(cfg, fs0, e.fs, copyTo, more, rels + [r])))
  {
    ReportedPath(cfg, fs0, p);
    EitherFileOrDir(fs, p);
    if Visible(cfg, p) && p in fs.files {
      var r := Rel(cfg.workspace, p);
      RecordStep(cfg, records, rels, Scan(cfg, fs0), r);
      if copyTo.Some? {
        var target := Join(copyTo.value, r);
        PlaceAllSnoc(fs0, cfg.workspace, copyTo.value, rels, r);
        PlaceKeeps(fs, p, target);
        PlaceUnseen(cfg, fs, p, copyTo.value, r);
        UnseenTransitive(cfg, fs0, fs, Place(fs, p, target).fs);
      }
    }
  }

  lemma EitherFileOrDir(fs: FileSystem, p: Path)
    requires WellFormed(fs)
    ensures !(p in fs.files && p in fs.dirs)
  {
  }

  /** The visible files are the same in both, with the same contents. */
  ghost predicate Unseen(cfg: Config, fs: FileSystem, fs1: FileSystem) {
    forall p :: Visible(cfg, p) ==>
      (p in fs.files <==> p in fs1.files) && (p in fs.files ==> fs.files[p] == fs1.files[p])
  }

  lemma UnseenTransitive(cfg: Config, fs: FileSystem, fs1: FileSystem, fs2: FileSystem)
    requires Unseen(cfg, fs, fs1) && Unseen(cfg, fs1, fs2)
    ensures Unseen(cfg, fs, fs2)
  {
  }

  lemma PlaceUnseen(cfg: Config, fs: FileSystem, source: Path, dir: Path, r: Path)
    requires forall p :: AtOrUnder(dir, p) ==> !Visible(cfg, p)
    ensures Unseen(cfg, fs, Place(fs, source, Join(dir, r)).fs)
  {
    forall p | Visible(cfg, p)
      ensures !AtOrUnder(Join(dir, r), p)
    {
      if Under(Join(dir, r), p) {
        UnderTransitive(dir, Join(dir, r), p);
      }
    }
    forall p | Visible(cfg, p)
      ensures var fs1 := Place(fs, source, Join(dir, r)).fs;
              (p in fs.files <==> p in fs1.files) && (p in fs.files ==> fs.files[p] == fs1.files[p])
    {
      PlaceFrame(fs, source, Join(dir, r), p);
    }
  }

  lemma ReportedPath(cfg: Config, fs: FileSystem, p: Path)
    ensures Visible(cfg, p) && p in fs.files ==>
              var r := Rel(cfg.workspace, p);
              r in Scan(cfg, fs) && Join(cfg.workspace, r) == p && Scan(cfg, fs)[r] == fs.files[p]
    ensures forall r :: r in Scan(cfg, fs) && Join(cfg.workspace, r) == p ==>
              Visible(cfg, p) && p in fs.files && r == Rel(cfg.workspace, p)
  {
    ScanMeaning(cfg, fs, Rel(cfg.workspace, p));
    forall r | r in Scan(cfg, fs)
      ensures Visible(cfg, Join(cfg.workspace, r)) && Join(cfg.workspace, r) in fs.files
    {
      ScanMeaning(cfg, fs, r);
    }
  }

  /** The records made so far are the digests of `files` on `rels`. */
  ghost predicate Recorded(cfg: Config, records: seq<Record>, rels: seq<Path>, files: map<Path, Content>) {
    && (forall r :: r in AsDict(records) <==> r in rels)
    && (forall r :: r in rels ==> r in files && AsDict(records)[r] == cfg.hash(files[r]))
  }

  lemma RecordStep(cfg: Config, records: seq<Record>, rels: seq<Path>, files: map<Path, Content>, r: Path)
    requires Recorded(cfg, records, rels, files) && r in files
    ensures Recorded(cfg, records + [Record(r, cfg.hash(files[r]))], rels + [r], files)
  {
    var more := records + [Record(r, cfg.hash(files[r]))];
    assert more[..|more| - 1] == records;
  }

  lemma AllScanned(cfg: Config, fs0: FileSystem, fs: FileSystem, copyTo: Option<Path>,
                   records: seq<Record>, rels: seq<Path>, listing: seq<Path>)
    requires Scanning(cfg, fs0, fs, copyTo, records, rels)
    requires forall p :: p in listing <==> p in fs0.files.Keys + fs0.dirs
    requires forall r :: r in Scan(cfg, fs0) && Join(cfg.workspace, r) in listing[..|listing|] ==> r in rels
    ensures AsDict(records) == Digests(cfg, Scan(cfg, fs0))
    ensures forall r :: r in rels <==> r in Scan(cfg, fs0)
    ensures copyTo.Some? ==> PlaceAll(fs0, cfg.workspace, copyTo.value, rels) == Effect(fs, true)
    ensures copyTo.None? ==> fs == fs0
  {
    assert listing[..|listing|] == listing;
    forall r | r in Scan(cfg, fs0)
      ensures r in rels
    {
      ScanMeaning(cfg, fs0, r);
    }
    RecordedAll(cfg, records, rels, Scan(cfg, fs0));
  }

  lemma RecordedAll(cfg: Config, records: seq<Record>, rels: seq<Path>, files: map<Path, Content>)
    requires Recorded(cfg, records, rels, files) && forall r :: r in files ==> r in rels
    ensures AsDict(records) == Digests(cfg, files) && forall r :: r in rels ==> r in files
  {
    assert AsDict(records).Keys == files.Keys;
  }
}
