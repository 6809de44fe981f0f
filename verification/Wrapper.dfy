/**
  The task operations of `lobster_security/lobster_security/wrapper.py` over the snapshot manager, and
  the accountability of their audit log: whatever differs from a task's manifest is named in the log,
  and exactly when an operation breaks that.
 */
module Wrapper {
  import opened Basics
  import opened Files
  import opened PathOrder
  import opened Snapshot
  import opened Rollback
  import opened SnapshotRuns

  /**
    One audit record. The wrapper hands each to the logger for the file of its own task; a sequence of them
    is the interleaving of those files in the order of writing, before the logger redacts their strings.
   */
  datatype AuditEvent =
    | TaskStart(task: TaskId)
    | TaskEnd(task: TaskId, success: bool, diff: Diff)
    | WroteFile(task: TaskId, path: Path)
    | RanCommand(task: TaskId, modified: seq<Path>)
    | RanRollback(task: TaskId, dryRun: bool, diff: Diff)

  datatype Decision = Allow | Deny | NeedsApproval

  /** The workspace paths that a record names. */
  function Names(cfg: Config, ev: AuditEvent): set<Path> {
    match ev
    case WroteFile(_, path) => if Under(cfg.workspace, path) then {Rel(cfg.workspace, path)} else {}
    case RanCommand(_, modified) => set r | r in modified
    case RanRollback(_, _, diff) => DiffPaths(diff)
    case _ => {}
  }

  function DiffPaths(d: Diff): set<Path> {
    set r | r in d.added + d.deleted + d.changed
  }

  /** The paths named since task `t` was last started. */
  function NamedSince(cfg: Config, audit: seq<AuditEvent>, t: TaskId): set<Path> {
    if audit == [] || audit[|audit| - 1] == TaskStart(t) then {}
    else NamedSince(cfg, audit[..|audit| - 1], t) + Names(cfg, audit[|audit| - 1])
  }

  lemma NamedSinceLogged(cfg: Config, audit: seq<AuditEvent>, ev: AuditEvent, t: TaskId)
    ensures NamedSince(cfg, audit + [ev], t)
         == if ev == TaskStart(t) then {} else NamedSince(cfg, audit, t) + Names(cfg, ev)
  {
    assert (audit + [ev])[..|audit|] == audit;
  }

  /** Manifest differences obey the triangle inequality. */
  lemma TouchedTriangle(a: Manifest, b: Manifest, c: Manifest)
    ensures Touched(a, c) <= Touched(a, b) + Touched(b, c)
  {
  }

  // ----- what each effect on the file system can touch -----

  function Current(cfg: Config, fs: FileSystem): Manifest {
    Digests(cfg, Scan(cfg, fs))
  }

  /** A path on which the current manifests differ is one where a visible file differs. */
  lemma TouchedFile(cfg: Config, fs: FileSystem, fs1: FileSystem, r: Path)
    requires r in Touched(Current(cfg, fs), Current(cfg, fs1))
    ensures var p := Join(cfg.workspace, r);
            Visible(cfg, p) && !((p in fs.files <==> p in fs1.files) && (p in fs.files ==> fs.files[p] == fs1.files[p]))
  {
    ScanMeaning(cfg, fs, r);
    ScanMeaning(cfg, fs1, r);
  }

  lemma SameFilesSameScan(cfg: Config, fs: FileSystem, fs1: FileSystem)
    requires forall p :: Visible(cfg, p) ==>
               (p in fs.files <==> p in fs1.files) && (p in fs.files ==> fs.files[p] == fs1.files[p])
    ensures Current(cfg, fs) == Current(cfg, fs1)
  {
    forall r | r in Touched(Current(cfg, fs), Current(cfg, fs1))
      ensures false
    {
      TouchedFile(cfg, fs, fs1, r);
    }
    NothingTouched(Current(cfg, fs), Current(cfg, fs1));
  }

  // ----- the logs of single tasks -----

  /** The records in the task's own log file. */
  function Own(audit: seq<AuditEvent>, t: TaskId): seq<AuditEvent> {
    if audit == [] then []
    else Own(audit[..|audit| - 1], t) + (if audit[|audit| - 1].task == t then [audit[|audit| - 1]] else [])
  }

  /** The paths that records of other tasks have named since `t` was last started. */
  function OthersSince(cfg: Config, audit: seq<AuditEvent>, t: TaskId): set<Path> {
    if audit == [] || audit[|audit| - 1] == TaskStart(t) then {}
    else
      OthersSince(cfg, audit[..|audit| - 1], t)
      + (if audit[|audit| - 1].task == t then {} else Names(cfg, audit[|audit| - 1]))
  }

  lemma {:induction false} OwnAndOthers(cfg: Config, audit: seq<AuditEvent>, t: TaskId)
    ensures NamedSince(cfg, audit, t) == NamedSince(cfg, Own(audit, t), t) + OthersSince(cfg, audit, t)
  {
    hide Names;
    if audit != [] {
      var before, last := audit[..|audit| - 1], audit[|audit| - 1];
      OwnAndOthers(cfg, before, t);
      if last.task == t {
        NamedSinceLogged(cfg, Own(before, t), last, t);
      } else {
        assert Own(before, t) + [] == Own(before, t);
      }
    }
  }

  /** A task's own file names all of some paths exactly when it names those of them that others have touched. */
  lemma OwnLogExplainsIff(cfg: Config, audit: seq<AuditEvent>, t: TaskId, paths: set<Path>)
    requires paths <= NamedSince(cfg, audit, t)
    ensures paths <= NamedSince(cfg, Own(audit, t), t)
       <==> paths * OthersSince(cfg, audit, t) <= NamedSince(cfg, Own(audit, t), t)
  {
    OwnAndOthers(cfg, audit, t);
    hide NamedSince;
    hide OthersSince;
    forall r | r in paths && paths * OthersSince(cfg, audit, t) <= NamedSince(cfg, Own(audit, t), t)
      ensures r in NamedSince(cfg, Own(audit, t), t)
    {
      assert r in OthersSince(cfg, audit, t) ==> r in paths * OthersSince(cfg, audit, t);
    }
  }

  /** The strings that a record has for paths in its log file, where every string is redacted first. */
  function Written(redact: string -> string, ev: AuditEvent): set<string> {
    match ev
    case WroteFile(_, path) => {redact(path)}
    case RanCommand(_, modified) => set r | r in modified :: redact(r)
    case RanRollback(_, _, diff) => set r | r in DiffPaths(diff) :: redact(r)
    case _ => {}
  }

  function WrittenSince(redact: string -> string, audit: seq<AuditEvent>, t: TaskId): set<string> {
    if audit == [] || audit[|audit| - 1] == TaskStart(t) then {}
    else WrittenSince(redact, audit[..|audit| - 1], t) + Written(redact, audit[|audit| - 1])
  }

  /** Whatever the redaction, the files still hold each named path redacted: as it is, or below the workspace. */
  lemma {:induction false} NamedIsWritten(cfg: Config, redact: string -> string, audit: seq<AuditEvent>, t: TaskId,
                                          r: Path)
    requires r in NamedSince(cfg, audit, t)
    ensures redact(r) in WrittenSince(redact, audit, t)
         || redact(Join(cfg.workspace, r)) in WrittenSince(redact, audit, t)
  {
    var before, last := audit[..|audit| - 1], audit[|audit| - 1];
    if r in NamedSince(cfg, before, t) {
      NamedIsWritten(cfg, redact, before, t, r);
    }
  }

  // ----- accounting for a task -----

  /** A manifest as scans make them: of visible files, none below another. */
  ghost predicate Honest(cfg: Config, m: Manifest) {
    NonNested(m.Keys) && forall r :: r in m ==> Visible(cfg, Join(cfg.workspace, r))
  }

  /** What a manifest file holds is honest, and the paths on which `now` differs from it are among `named`. */
  ghost predicate Explained(cfg: Config, saved: Saved, t: TaskId, now: Manifest, named: set<Path>) {
    && saved.filesRoot == FilesRoot(cfg, t) && Honest(cfg, AsDict(saved.files))
    && Touched(AsDict(saved.files), now) <= named
  }

  /** Every path on which the workspace differs from the task's manifest is named since the task started. */
  ghost predicate Accounts(cfg: Config, fs: FileSystem, audit: seq<AuditEvent>, t: TaskId) {
    SavedOf(cfg, fs, t).Some? ==>
      Explained(cfg, SavedOf(cfg, fs, t).value, t, Current(cfg, fs), NamedSince(cfg, audit, t))
  }

  ghost predicate AllAccount(cfg: Config, fs: FileSystem, audit: seq<AuditEvent>) {
    forall t :: TaskName(t) ==> Accounts(cfg, fs, audit, t)
  }

  /** With no manifest in the area there is nothing to account for. */
  lemma NothingToAccount(cfg: Config, fs: FileSystem, audit: seq<AuditEvent>)
    requires forall t :: TaskName(t) ==> SavedOf(cfg, fs, t).None?
    ensures AllAccount(cfg, fs, audit)
  {
  }

  /**
    What an operation leaves of a task's account, exactly. It keeps the task's manifest file, and a record of
    it names `names`: then every path it touched beyond those must have been named before, or agree with the
    manifest now.
   */
  lemma AccountsIff(cfg: Config, fs: FileSystem, fs1: FileSystem, audit: seq<AuditEvent>, audit1: seq<AuditEvent>,
                    names: set<Path>, t: TaskId)
    requires Accounts(cfg, fs, audit, t) && SavedOf(cfg, fs1, t) == SavedOf(cfg, fs, t)
    requires NamedSince(cfg, audit1, t) == NamedSince(cfg, audit, t) + names
    ensures Accounts(cfg, fs1, audit1, t)
       <==> (SavedOf(cfg, fs, t).Some? ==>
               forall r :: r in Touched(Current(cfg, fs), Current(cfg, fs1)) && r !in names ==>
                 r in NamedSince(cfg, audit, t)
                 || r !in Touched(AsDict(SavedOf(cfg, fs, t).value.files), Current(cfg, fs1)))
  {
    hide SavedOf;
    hide Current;
    hide NamedSince;
    hide Honest;
    hide AsDict;
    if SavedOf(cfg, fs, t).Some? {
      var m, now, now1 := AsDict(SavedOf(cfg, fs, t).value.files), Current(cfg, fs), Current(cfg, fs1);
      TouchedTriangle(m, now, now1);
      hide Touched;
      forall r | r in Touched(m, now1) && r !in Touched(now, now1)
        ensures r in NamedSince(cfg, audit, t)
      {
      }
    }
  }

  /** So a record that names all that was touched keeps the account. */
  lemma LogAccounts(cfg: Config, fs: FileSystem, fs1: FileSystem, audit: seq<AuditEvent>, ev: AuditEvent, t: TaskId)
    requires Accounts(cfg, fs, audit, t) && SavedOf(cfg, fs1, t) == SavedOf(cfg, fs, t) && !ev.TaskStart?
    requires Touched(Current(cfg, fs), Current(cfg, fs1)) <= Names(cfg, ev)
    ensures Accounts(cfg, fs1, audit + [ev], t)
  {
    NamedSinceLogged(cfg, audit, ev, t);
    hide *;
    AccountsIff(cfg, fs, fs1, audit, audit + [ev], Names(cfg, ev), t);
  }

  /** And what touches nothing keeps it, recorded or not. */
  lemma QuietAccounts(cfg: Config, fs: FileSystem, fs1: FileSystem, audit: seq<AuditEvent>, t: TaskId)
    requires Accounts(cfg, fs, audit, t) && SavedOf(cfg, fs1, t) == SavedOf(cfg, fs, t)
    requires Current(cfg, fs1) == Current(cfg, fs)
    ensures Accounts(cfg, fs1, audit, t)
    ensures forall ev: AuditEvent :: !ev.TaskStart? ==> Accounts(cfg, fs1, audit + [ev], t)
  {
    hide SavedOf;
    hide Current;
    hide NamedSince;
    hide Names;
    hide Honest;
    hide AsDict;
    hide Touched;
    forall ev: AuditEvent | !ev.TaskStart?
      ensures NamedSince(cfg, audit, t) <= NamedSince(cfg, audit + [ev], t)
    {
      NamedSinceLogged(cfg, audit, ev, t);
    }
  }

  /** Files that no scan reports decide what the manifests are, and nothing else of an account. */
  lemma SameArea1(cfg: Config, fs: FileSystem, fs1: FileSystem, t: TaskId)
    requires ManifestPath(cfg, t) in fs.files <==> ManifestPath(cfg, t) in fs1.files
    requires ManifestPath(cfg, t) in fs.files ==> fs.files[ManifestPath(cfg, t)] == fs1.files[ManifestPath(cfg, t)]
    ensures SavedOf(cfg, fs1, t) == SavedOf(cfg, fs, t)
  {
  }

  lemma SameAreaSaved(cfg: Config, fs: FileSystem, fs1: FileSystem, t: TaskId)
    requires SameArea(cfg, fs, fs1)
    ensures SavedOf(cfg, fs1, t) == SavedOf(cfg, fs, t)
  {
    ManifestInArea(cfg, t);
  }

  // ----- starting a task -----

  /** What a snapshot writes lies at the files root or below it, or is the manifest file. */
  lemma CreateFrame(cfg: Config, t: TaskId, fs: FileSystem, rels: seq<Path>, records: seq<Record>, p: Path)
    requires !AtOrUnder(FilesRoot(cfg, t), p) && p != ManifestPath(cfg, t)
    ensures var e := CreateEffect(cfg, t, fs, rels, records);
            (p in e.fs.files <==> p in fs.files) && (p in fs.files ==> e.fs.files[p] == fs.files[p])
  {
    CopyFrame(cfg, t, fs, rels, p);
    hide CopyEffect;
    hide ManifestPath;
    hide FilesRoot;
  }

  lemma CopyFrame(cfg: Config, t: TaskId, fs: FileSystem, rels: seq<Path>, p: Path)
    requires !AtOrUnder(FilesRoot(cfg, t), p)
    ensures var e := CopyEffect(cfg, t, fs, rels);
            (p in e.fs.files <==> p in fs.files) && (p in fs.files ==> e.fs.files[p] == fs.files[p])
  {
    var root := FilesRoot(cfg, t);
    CopyParts(cfg, t, fs, rels);
    forall r | r in rels
      ensures !AtOrUnder(Join(root, r), p)
    {
      if Under(Join(root, r), p) {
        UnderTransitive(root, Join(root, r), p);
      }
    }
    PlaceAllFrame(MakeDir(fs, root).fs, cfg.workspace, root, rels, p);
    hide PlaceAll;
    hide FilesRoot;
    hide Under;
  }

  lemma CreateWellFormed(cfg: Config, t: TaskId, fs: FileSystem, rels: seq<Path>, records: seq<Record>)
    requires WellFormed(fs)
    ensures WellFormed(CreateEffect(cfg, t, fs, rels, records).fs)
  {
    CopyParts(cfg, t, fs, rels);
    MakeParentsWellFormed(fs, Join(FilesRoot(cfg, t), ""));
    PlaceAllKeeps(MakeDir(fs, FilesRoot(cfg, t)).fs, cfg.workspace, FilesRoot(cfg, t), rels);
    hide PlaceAll;
  }

  /** Taking a snapshot, also when it raises half-way, changes nothing that a scan reports. */
  lemma SnapshotTouchesNothing(cfg: Config, t: TaskId, fs: FileSystem, rels: seq<Path>, records: seq<Record>)
    requires Hidden(cfg)
    ensures Current(cfg, CreateEffect(cfg, t, fs, rels, records).fs) == Current(cfg, fs)
  {
    var e := CreateEffect(cfg, t, fs, rels, records);
    FilesRootHidden(cfg, t);
    ManifestInArea(cfg, t);
    hide CreateEffect;
    hide Scan;
    hide FilesRoot;
    hide ManifestPath;
    forall p | Visible(cfg, p)
      ensures (p in fs.files <==> p in e.fs.files) && (p in fs.files ==> fs.files[p] == e.fs.files[p])
    {
      CreateFrame(cfg, t, fs, rels, records, p);
    }
    hide Visible;
    SameFilesSameScan(cfg, fs, e.fs);
  }

  /** Nor does it change another task's manifest; and its own only when it succeeds. */
  lemma SnapshotManifests(cfg: Config, t: TaskId, fs: FileSystem, rels: seq<Path>, records: seq<Record>, u: TaskId)
    requires TaskName(t) && TaskName(u) && (u == t ==> !CreateEffect(cfg, t, fs, rels, records).ok)
    ensures SavedOf(cfg, CreateEffect(cfg, t, fs, rels, records).fs, u) == SavedOf(cfg, fs, u)
  {
    var e, p := CreateEffect(cfg, t, fs, rels, records), ManifestPath(cfg, u);
    ManifestInArea(cfg, u);
    if AtOrUnder(FilesRoot(cfg, t), p) {
      if u == t {
        ManifestApart(cfg, t, p);
      } else {
        if p != FilesRoot(cfg, t) {
          UnderTransitive(TaskRoot(cfg, t), FilesRoot(cfg, t), p);
        }
        TaskAreasApart(cfg, t, u, p);
      }
    }
    if u == t {
      FailedCreate(cfg, t, fs, rels, records);
      CopyFrame(cfg, t, fs, rels, p);
    } else {
      if p == ManifestPath(cfg, t) {
        TaskAreasApart(cfg, t, u, p);
      }
      CreateFrame(cfg, t, fs, rels, records, p);
    }
    hide CreateEffect;
    hide CopyEffect;
    SameArea1(cfg, fs, e.fs, u);
  }

  lemma FailedCreate(cfg: Config, t: TaskId, fs: FileSystem, rels: seq<Path>, records: seq<Record>)
    ensures var e := CreateEffect(cfg, t, fs, rels, records); !e.ok ==> e.fs == CopyEffect(cfg, t, fs, rels).fs
  {
    hide CopyEffect;
  }

  lemma ScanIsHonest(cfg: Config, fs: FileSystem)
    requires WellFormed(fs)
    ensures Honest(cfg, Current(cfg, fs))
  {
    ScanNonNested(cfg, fs);
    forall r | r in Current(cfg, fs)
      ensures Visible(cfg, Join(cfg.workspace, r))
    {
      ScanMeaning(cfg, fs, r);
    }
    assert Current(cfg, fs).Keys == Scan(cfg, fs).Keys;
  }

  /** A task that starts now is accounted for by an empty log; the others still by theirs. */
  lemma StartAccounts(cfg: Config, t: TaskId, fs: FileSystem, rels: seq<Path>, records: seq<Record>,
                      audit: seq<AuditEvent>, u: TaskId)
    requires Faithful(cfg) && Hidden(cfg) && WellFormed(fs) && TaskName(t) && TaskName(u)
    requires Accounts(cfg, fs, audit, u)
    requires CreateEffect(cfg, t, fs, rels, records).ok ==> AsDict(records) == Current(cfg, fs)
    ensures var e := CreateEffect(cfg, t, fs, rels, records);
            Accounts(cfg, e.fs, if e.ok then audit + [TaskStart(t)] else audit, u)
  {
    hide *;
    var e := CreateEffect(cfg, t, fs, rels, records);
    SnapshotTouchesNothing(cfg, t, fs, rels, records);
    if e.ok && u == t {
      CreatedManifest(cfg, t, fs, rels, records);
      ScanIsHonest(cfg, fs);
      NothingTouched(Current(cfg, fs), Current(cfg, fs));
      NewlyAccounts(cfg, e.fs, audit, t);
    } else {
      SnapshotManifests(cfg, t, fs, rels, records, u);
      QuietAccounts(cfg, fs, e.fs, audit, u);
      if e.ok {
        OtherStart(cfg, e.fs, audit, t, u);
      }
    }
  }

  lemma NewlyAccounts(cfg: Config, fs: FileSystem, audit: seq<AuditEvent>, t: TaskId)
    requires SavedOf(cfg, fs, t).Some? && SavedOf(cfg, fs, t).value.filesRoot == FilesRoot(cfg, t)
    requires AsDict(SavedOf(cfg, fs, t).value.files) == Current(cfg, fs) && Honest(cfg, Current(cfg, fs))
    requires Touched(Current(cfg, fs), Current(cfg, fs)) == {}
    ensures Accounts(cfg, fs, audit + [TaskStart(t)], t)
  {
    hide SavedOf;
    hide AsDict;
    hide Honest;
    hide Current;
    hide Touched;
  }

  lemma OtherStart(cfg: Config, fs: FileSystem, audit: seq<AuditEvent>, t: TaskId, u: TaskId)
    requires Accounts(cfg, fs, audit, u) && u != t
    ensures Accounts(cfg, fs, audit + [TaskStart(t)], u)
  {
    NamedSinceLogged(cfg, audit, TaskStart(t), u);
    hide SavedOf;
    hide Honest;
    hide Current;
    hide NamedSince;
    hide Touched;
  }

  // ----- writing a file -----

  lemma WriteTouches(cfg: Config, fs: FileSystem, p: Path, content: Content)
    requires WellFormed(fs)
    ensures var e := WriteText(fs, p, content);
            && WellFormed(e.fs)
            && (e.ok ==> Touched(Current(cfg, fs), Current(cfg, e.fs)) <= Names(cfg, WroteFile("", p)))
            && (!e.ok ==> Current(cfg, e.fs) == Current(cfg, fs))
  {
    var e := WriteText(fs, p, content);
    MakeParentsWellFormed(fs, p);
    if e.ok {
      forall r | r in Touched(Current(cfg, fs), Current(cfg, e.fs))
        ensures r in Names(cfg, WroteFile("", p))
      {
        TouchedFile(cfg, fs, e.fs, r);
        assert Join(cfg.workspace, r) == p;
      }
    } else {
      SameFilesSameScan(cfg, fs, e.fs);
    }
  }

  lemma WriteFrame(fs: FileSystem, p: Path, content: Content, q: Path)
    requires q != p
    ensures var e := WriteText(fs, p, content);
            (q in e.fs.files <==> q in fs.files) && (q in fs.files ==> e.fs.files[q] == fs.files[q])
  {
  }

  /** A write that is not to a task's manifest file keeps the task's account. */
  lemma WriteAccounts(cfg: Config, fs: FileSystem, audit: seq<AuditEvent>, t: TaskId, p: Path, content: Content,
                      u: TaskId)
    requires WellFormed(fs) && Accounts(cfg, fs, audit, u) && p != ManifestPath(cfg, u)
    ensures var e := WriteText(fs, p, content);
            Accounts(cfg, e.fs, if e.ok then audit + [WroteFile(t, p)] else audit, u)
  {
    var e := WriteText(fs, p, content);
    WriteTouches(cfg, fs, p, content);
    WriteFrame(fs, p, content, ManifestPath(cfg, u));
    assert Names(cfg, WroteFile("", p)) == Names(cfg, WroteFile(t, p));
    hide *;
    SameArea1(cfg, fs, e.fs, u);
    if e.ok {
      LogAccounts(cfg, fs, e.fs, audit, WroteFile(t, p), u);
    } else {
      QuietAccounts(cfg, fs, e.fs, audit, u);
    }
  }

  /** What a caller can check before writing `content` to the manifest file of `u`. */
  ghost predicate Admits(cfg: Config, fs: FileSystem, audit: seq<AuditEvent>, u: TaskId, content: Content) {
    cfg.parse(content).Some? ==>
      Explained(cfg, cfg.parse(content).value, u, Current(cfg, fs),
                NamedSince(cfg, audit, u) + Names(cfg, WroteFile(u, ManifestPath(cfg, u))))
  }

  /** A write to it keeps the account exactly when what it leaves there is itself explained. */
  lemma ManifestWriteIff(cfg: Config, fs: FileSystem, audit: seq<AuditEvent>, t: TaskId, content: Content, u: TaskId)
    requires Hidden(cfg) && WellFormed(fs) && WriteText(fs, ManifestPath(cfg, u), content).ok
    ensures Accounts(cfg, WriteText(fs, ManifestPath(cfg, u), content).fs,
                     audit + [WroteFile(t, ManifestPath(cfg, u))], u)
       <==> Admits(cfg, fs, audit, u, content)
  {
    ManifestWritten(cfg, fs, content, u);
    NamedSinceLogged(cfg, audit, WroteFile(t, ManifestPath(cfg, u)), u);
    hide WriteText;
    hide Current;
    hide NamedSince;
    hide SavedOf;
    hide Explained;
    hide ManifestPath;
  }

  /** Writing a manifest file changes what is loaded for its task, and nothing that a scan reports. */
  lemma ManifestWritten(cfg: Config, fs: FileSystem, content: Content, u: TaskId)
    requires Hidden(cfg) && WriteText(fs, ManifestPath(cfg, u), content).ok
    ensures var e := WriteText(fs, ManifestPath(cfg, u), content);
            SavedOf(cfg, e.fs, u) == cfg.parse(content) && Current(cfg, e.fs) == Current(cfg, fs)
  {
    var p := ManifestPath(cfg, u);
    var e := WriteText(fs, p, content);
    ManifestInArea(cfg, u);
    hide ManifestPath;
    forall q | Visible(cfg, q)
      ensures (q in fs.files <==> q in e.fs.files) && (q in fs.files ==> fs.files[q] == e.fs.files[q])
    {
      WriteFrame(fs, p, content, q);
    }
    SameFilesSameScan(cfg, fs, e.fs);
    hide Current;
  }

  /**
    The input that breaks it: an empty manifest, written through the wrapper over the one of a task. Every
    visible file that the log does not name since the start then counts as added, and unaccounted for.
   */
  lemma ForgedManifest(cfg: Config, fs: FileSystem, audit: seq<AuditEvent>, t: TaskId, r: Path)
    requires Faithful(cfg) && Hidden(cfg) && WellFormed(fs)
    requires r in Current(cfg, fs) && r !in NamedSince(cfg, audit, t)
    requires WriteText(fs, ManifestPath(cfg, t), cfg.render(Saved(FilesRoot(cfg, t), []))).ok
    ensures var e := WriteText(fs, ManifestPath(cfg, t), cfg.render(Saved(FilesRoot(cfg, t), [])));
            var audit1 := audit + [WroteFile(t, ManifestPath(cfg, t))];
            && SavedOf(cfg, e.fs, t) == Some(Saved(FilesRoot(cfg, t), []))
            && r in Added(AsDict([]), Current(cfg, e.fs)) && r !in NamedSince(cfg, audit1, t)
            && !Accounts(cfg, e.fs, audit1, t)
  {
    var p, forged := ManifestPath(cfg, t), Saved(FilesRoot(cfg, t), []);
    var e := WriteText(fs, p, cfg.render(forged));
    ManifestWritten(cfg, fs, cfg.render(forged), t);
    assert cfg.parse(cfg.render(forged)) == Some(forged);
    NamedSinceLogged(cfg, audit, WroteFile(t, p), t);
    ManifestUnreported(cfg, fs, t, r);
    hide WriteText;
    hide Current;
    hide NamedSince;
    hide SavedOf;
    hide ManifestPath;
    hide FilesRoot;
    hide Honest;
    assert r in Touched(AsDict([]), Current(cfg, e.fs));
  }

  lemma ManifestUnreported(cfg: Config, fs: FileSystem, t: TaskId, r: Path)
    requires Hidden(cfg) && r in Current(cfg, fs)
    ensures r !in Names(cfg, WroteFile(t, ManifestPath(cfg, t)))
  {
    ManifestInArea(cfg, t);
    ScanMeaning(cfg, fs, r);
    hide Scan;
    hide ManifestPath;
  }

  // ----- running a command -----

  /** The account after a command that left the tree `result`. */
  lemma CommandAccounts(cfg: Config, fs: FileSystem, result: FileSystem, audit: seq<AuditEvent>, t: TaskId,
                        touched: seq<Path>, u: TaskId)
    requires Accounts(cfg, fs, audit, u) && SavedOf(cfg, result, u) == SavedOf(cfg, fs, u)
    requires Sorts(touched, Touched(Current(cfg, fs), Current(cfg, result)))
    ensures Accounts(cfg, result, audit + [RanCommand(t, touched)], u)
  {
    CommandNames(cfg, t, touched, Current(cfg, fs), Current(cfg, result));
    hide *;
    LogAccounts(cfg, fs, result, audit, RanCommand(t, touched), u);
  }

  lemma CommandNames(cfg: Config, t: TaskId, touched: seq<Path>, before: Manifest, after: Manifest)
    requires Sorts(touched, Touched(before, after))
    ensures Touched(before, after) <= Names(cfg, RanCommand(t, touched))
  {
  }

  // ----- rolling back -----

  /** The copies of a rollback of task `t`, by an honest manifest, that come before the first that raises. */
  function Copied(cfg: Config, t: TaskId, fs: FileSystem, d: Diff): seq<Path> {
    Restored(d)[..Done(fs, FilesRoot(cfg, t), cfg.workspace, Restored(d))]
  }

  function CopyAt(cfg: Config, t: TaskId, fs: FileSystem, r: Path): Path {
    Landing(fs, FilesRoot(cfg, t), cfg.workspace, r)
  }

  /** A rollback of task `t` from `fs`, by an honest manifest `m` of it. */
  ghost predicate Rolling(cfg: Config, fs: FileSystem, m: Manifest, d: Diff) {
    Hidden(cfg) && WellFormed(fs) && Honest(cfg, m) && IsDiff(d, m, Current(cfg, fs))
  }

  /** No copy lands in the snapshot area. */
  lemma LandingOutside(cfg: Config, from: Path, fs: FileSystem, q: Path)
    requires Hidden(cfg) && Visible(cfg, Join(cfg.workspace, q))
    ensures !Under(cfg.root, Landing(fs, from, cfg.workspace, q))
  {
    var target, source := Join(cfg.workspace, q), Join(from, q);
    BaseNoSlash(source);
    AboveName(target, Base(source), cfg.root);
  }

  lemma RollbackApart(cfg: Config, t: TaskId, fs: FileSystem, m: Manifest, d: Diff)
    requires Rolling(cfg, fs, m, d)
    ensures Apart(fs, FilesRoot(cfg, t), cfg.workspace, Restored(d))
    ensures forall r :: r in Restored(d) ==> r in m && Visible(cfg, Join(cfg.workspace, r))
  {
    RestoredUnnested(cfg, fs, m, d);
    hide *;
    RollingRestores(cfg, fs, m, d);
    forall r, q | r in Restored(d) && q in Restored(d)
      ensures Join(FilesRoot(cfg, t), r) != Landing(fs, FilesRoot(cfg, t), cfg.workspace, q)
    {
      LandingOutside(cfg, FilesRoot(cfg, t), fs, q);
      CopyInArea(cfg, t, r);
    }
    AreApart(fs, FilesRoot(cfg, t), cfg.workspace, Restored(d));
  }

  lemma RollingRestores(cfg: Config, fs: FileSystem, m: Manifest, d: Diff)
    requires Rolling(cfg, fs, m, d)
    ensures Hidden(cfg) && forall r :: r in Restored(d) ==> r in m && Visible(cfg, Join(cfg.workspace, r))
  {
    RestoredUnnested(cfg, fs, m, d);
    hide Current;
    hide Visible;
  }

  lemma AreApart(fs: FileSystem, from: Path, to: Path, rels: seq<Path>)
    requires Unnested(rels) && forall i, j :: 0 <= i < j < |rels| ==> rels[i] != rels[j]
    requires forall r, q :: r in rels && q in rels ==> Join(from, r) != Landing(fs, from, to, q)
    ensures Apart(fs, from, to, rels)
  {
    hide Unnested;
    hide Landing;
    hide Join;
  }

  /** A rollback changes no manifest file. */
  lemma RollbackManifests(cfg: Config, t: TaskId, fs: FileSystem, m: Manifest, d: Diff, u: TaskId)
    requires Rolling(cfg, fs, m, d)
    ensures SavedOf(cfg, RollbackEffect(cfg, FilesRoot(cfg, t), fs, d).fs, u) == SavedOf(cfg, fs, u)
  {
    var from, p := FilesRoot(cfg, t), ManifestPath(cfg, u);
    ManifestInArea(cfg, u);
    RollbackApart(cfg, t, fs, m, d);
    assert !Visible(cfg, p);
    forall r | r in d.added
      ensures Join(cfg.workspace, r) != p
    {
      ScanMeaning(cfg, fs, r);
    }
    forall r | r in Restored(d)
      ensures Landing(fs, from, cfg.workspace, r) != p
    {
      LandingOutside(cfg, from, fs, r);
    }
    hide Landing;
    hide Scan;
    hide RollbackEffect;
    hide ManifestPath;
    hide Join;
    RollbackFrame(cfg, from, fs, m, d, p);
    SameArea1(cfg, fs, RollbackEffect(cfg, from, fs, d).fs, u);
  }

  /** The tree after a rollback: the copies that came before a raise, and without one the added files gone. */
  lemma RollbackTree(cfg: Config, t: TaskId, fs: FileSystem, m: Manifest, d: Diff)
    requires Rolling(cfg, fs, m, d)
    ensures var from := FilesRoot(cfg, t);
            var e, placed := RollbackEffect(cfg, from, fs, d), PlaceAll(fs, from, cfg.workspace, Restored(d));
            && Landed(fs, placed.fs, from, cfg.workspace, Copied(cfg, t, fs, d))
            && (e.ok <==> |Copied(cfg, t, fs, d)| == |Restored(d)|)
            && e.fs.files == if e.ok then placed.fs.files - Targets(cfg.workspace, d.added) else placed.fs.files
  {
    var from := FilesRoot(cfg, t);
    var placed := PlaceAll(fs, from, cfg.workspace, Restored(d));
    RollbackApart(cfg, t, fs, m, d);
    PlaceAllKeeps(fs, from, cfg.workspace, Restored(d));
    forall p | p in Targets(cfg.workspace, d.added)
      ensures p !in placed.fs.dirs
    {
      var r :| r in d.added && p == Join(cfg.workspace, r);
      ScanMeaning(cfg, fs, r);
    }
    assert Targets(cfg.workspace, d.added) !! placed.fs.dirs;
    RollbackParts(cfg, from, fs, d);
    hide PlaceAll;
    hide UnlinkAll;
    hide RollbackEffect;
    hide Landed;
    hide Done;
    hide Targets;
    hide Apart;
    PlaceAllExact(fs, from, cfg.workspace, Restored(d));
    UnlinkAllTargets(placed.fs, cfg.workspace, d.added);
  }

  /** A path that a rollback touches is one where a copy landed, or one of the added ones. */
  lemma RollbackTouchesWhere(cfg: Config, t: TaskId, fs: FileSystem, m: Manifest, d: Diff, x: Path)
    requires Rolling(cfg, fs, m, d)
    requires var e := RollbackEffect(cfg, FilesRoot(cfg, t), fs, d); x in Touched(Current(cfg, fs), Current(cfg, e.fs))
    ensures var e := RollbackEffect(cfg, FilesRoot(cfg, t), fs, d);
            && Visible(cfg, Join(cfg.workspace, x))
            && ((exists r :: r in Copied(cfg, t, fs, d) && CopyAt(cfg, t, fs, r) == Join(cfg.workspace, x))
                || (e.ok && x in d.added))
  {
    hide *;
    var from := FilesRoot(cfg, t);
    var e, p := RollbackEffect(cfg, from, fs, d), Join(cfg.workspace, x);
    TouchedFile(cfg, fs, e.fs, x);
    RollbackTree(cfg, t, fs, m, d);
    TargetOf(cfg, d.added, x);
    LandedElsewhere(fs, PlaceAll(fs, from, cfg.workspace, Restored(d)).fs, from, cfg.workspace,
                    Copied(cfg, t, fs, d), p);
    if r :| r in Copied(cfg, t, fs, d) && Landing(fs, from, cfg.workspace, r) == p {
      CopyAtIs(cfg, t, fs, r);
    }
  }

  lemma CopyAtIs(cfg: Config, t: TaskId, fs: FileSystem, r: Path)
    ensures CopyAt(cfg, t, fs, r) == Landing(fs, FilesRoot(cfg, t), cfg.workspace, r)
  {
  }

  lemma LandedElsewhere(fs: FileSystem, fs1: FileSystem, from: Path, to: Path, rels: seq<Path>, p: Path)
    requires Landed(fs, fs1, from, to, rels)
    ensures (exists r :: r in rels && Landing(fs, from, to, r) == p)
         || ((p in fs1.files <==> p in fs.files) && (p in fs.files ==> fs1.files[p] == fs.files[p]))
  {
    hide Landing;
  }

  /** Where a copy landed and stayed, the workspace has the digest of what was copied. */
  lemma RollbackLeaves(cfg: Config, t: TaskId, fs: FileSystem, m: Manifest, d: Diff, r: Path, x: Path)
    requires Rolling(cfg, fs, m, d) && r in Copied(cfg, t, fs, d)
    requires CopyAt(cfg, t, fs, r) == Join(cfg.workspace, x) && Visible(cfg, Join(cfg.workspace, x))
    requires RollbackEffect(cfg, FilesRoot(cfg, t), fs, d).ok ==> x !in d.added
    ensures var now := Current(cfg, RollbackEffect(cfg, FilesRoot(cfg, t), fs, d).fs);
            && Join(FilesRoot(cfg, t), r) in fs.files
            && x in now && now[x] == cfg.hash(fs.files[Join(FilesRoot(cfg, t), r)])
  {
    var from := FilesRoot(cfg, t);
    var e, p := RollbackEffect(cfg, from, fs, d), Join(cfg.workspace, x);
    RollbackTree(cfg, t, fs, m, d);
    TargetOf(cfg, d.added, x);
    ScanMeaning(cfg, e.fs, x);
    ScanContent(cfg, e.fs, x);
    hide Copied;
    hide RollbackEffect;
    hide FilesRoot;
    hide Landing;
    hide PlaceAll;
    hide Scan;
    hide Targets;
  }

  /** Where the rollback copies into a directory, on a path that is new and visible. */
  ghost predicate Strays(cfg: Config, t: TaskId, fs: FileSystem, d: Diff, r: Path) {
    && r in d.deleted && Join(cfg.workspace, r) in fs.dirs
    && CopyAt(cfg, t, fs, r) !in fs.files && Visible(cfg, CopyAt(cfg, t, fs, r))
  }

  /** No file is copied into a directory under a new name. */
  ghost predicate NoStray(cfg: Config, t: TaskId, fs: FileSystem, d: Diff) {
    forall r :: r in d.deleted ==> !Strays(cfg, t, fs, d, r)
  }

  /** Its path in the directory is none of the manifest's. */
  lemma InsideIsNew(cfg: Config, t: TaskId, fs: FileSystem, m: Manifest, r: Path, x: Path)
    requires Honest(cfg, m) && r in m && Join(cfg.workspace, r) in fs.dirs
    requires CopyAt(cfg, t, fs, r) == Join(cfg.workspace, x)
    ensures x !in m
  {
    JoinUnder(cfg.workspace, r, x);
    hide Visible;
    hide FilesRoot;
  }

  /**
    A rollback that succeeds touches only what its diff lists if and only if it copies no file into a
    directory under a new name.
   */
  lemma RollbackTouchesIff(cfg: Config, t: TaskId, fs: FileSystem, m: Manifest, d: Diff)
    requires Rolling(cfg, fs, m, d) && RollbackEffect(cfg, FilesRoot(cfg, t), fs, d).ok
    ensures Touched(Current(cfg, fs), Current(cfg, RollbackEffect(cfg, FilesRoot(cfg, t), fs, d).fs)) <= DiffPaths(d)
       <==> NoStray(cfg, t, fs, d)
  {
    var now, now1 := Current(cfg, fs), Current(cfg, RollbackEffect(cfg, FilesRoot(cfg, t), fs, d).fs);
    if r :| r in d.deleted && Strays(cfg, t, fs, d, r) {
      StrayTouched(cfg, t, fs, m, d, r);
    } else {
      forall x | x in Touched(now, now1)
        ensures x in DiffPaths(d)
      {
        ListedUnlessStray(cfg, t, fs, m, d, x);
      }
    }
  }

  lemma StrayTouched(cfg: Config, t: TaskId, fs: FileSystem, m: Manifest, d: Diff, r: Path)
    requires Rolling(cfg, fs, m, d) && RollbackEffect(cfg, FilesRoot(cfg, t), fs, d).ok
    requires Strays(cfg, t, fs, d, r)
    ensures var x := Rel(cfg.workspace, CopyAt(cfg, t, fs, r));
            x in Touched(Current(cfg, fs), Current(cfg, RollbackEffect(cfg, FilesRoot(cfg, t), fs, d).fs))
            && x !in DiffPaths(d)
  {
    hide *;
    var x := Rel(cfg.workspace, CopyAt(cfg, t, fs, r));
    StrayFacts(cfg, t, fs, m, d, r);
    RollbackTree(cfg, t, fs, m, d);
    WholeIsCopied(cfg, t, fs, d);
    RollbackLeaves(cfg, t, fs, m, d, r, x);
    NewIsTouched(Current(cfg, fs), Current(cfg, RollbackEffect(cfg, FilesRoot(cfg, t), fs, d).fs), x);
  }

  lemma NewIsTouched(now: Manifest, now1: Manifest, x: Path)
    requires x !in now && x in now1
    ensures x in Touched(now, now1)
  {
  }

  lemma WholeIsCopied(cfg: Config, t: TaskId, fs: FileSystem, d: Diff)
    requires |Copied(cfg, t, fs, d)| == |Restored(d)|
    ensures Copied(cfg, t, fs, d) == Restored(d)
  {
    hide Done;
  }

  lemma StrayFacts(cfg: Config, t: TaskId, fs: FileSystem, m: Manifest, d: Diff, r: Path)
    requires Rolling(cfg, fs, m, d) && Strays(cfg, t, fs, d, r)
    ensures var x := Rel(cfg.workspace, CopyAt(cfg, t, fs, r));
            && r in Restored(d) && Join(cfg.workspace, x) == CopyAt(cfg, t, fs, r)
            && Visible(cfg, Join(cfg.workspace, x))
            && x !in Current(cfg, fs) && x !in DiffPaths(d) && x !in d.added
  {
    var x := Rel(cfg.workspace, CopyAt(cfg, t, fs, r));
    ScanMeaning(cfg, fs, x);
    InsideIsNew(cfg, t, fs, m, r, x);
    hide Scan;
    hide CopyAt;
    hide Honest;
  }

  /** A touched path of a rollback that its diff does not list is a stray one. */
  lemma ListedUnlessStray(cfg: Config, t: TaskId, fs: FileSystem, m: Manifest, d: Diff, x: Path)
    requires Rolling(cfg, fs, m, d)
    requires var e := RollbackEffect(cfg, FilesRoot(cfg, t), fs, d); x in Touched(Current(cfg, fs), Current(cfg, e.fs))
    ensures x in DiffPaths(d)
         || exists r :: r in d.deleted && Strays(cfg, t, fs, d, r) && CopyAt(cfg, t, fs, r) == Join(cfg.workspace, x)
  {
    RollbackTouchesWhere(cfg, t, fs, m, d, x);
    if x !in DiffPaths(d) {
      var r :| r in Copied(cfg, t, fs, d) && CopyAt(cfg, t, fs, r) == Join(cfg.workspace, x);
      UnlistedIsStray(cfg, t, fs, m, d, r, x);
    }
  }

  lemma UnlistedIsStray(cfg: Config, t: TaskId, fs: FileSystem, m: Manifest, d: Diff, r: Path, x: Path)
    requires Rolling(cfg, fs, m, d) && r in Restored(d) && x !in DiffPaths(d)
    requires CopyAt(cfg, t, fs, r) == Join(cfg.workspace, x) && Visible(cfg, Join(cfg.workspace, x))
    ensures Strays(cfg, t, fs, d, r)
  {
    var target := Join(cfg.workspace, r);
    if target !in fs.dirs {
      JoinUnder(cfg.workspace, r, x);
      assert false;
    }
    ScanMeaning(cfg, fs, r);
    assert r !in d.changed;
    assert r in m;
    InsideIsNew(cfg, t, fs, m, r, x);
    ScanMeaning(cfg, fs, x);
  }

  /** What a caller can check before a rollback of `t`, for task `u`: each copy is recorded, named before, or agrees. */
  ghost predicate Spared(cfg: Config, fs: FileSystem, audit: seq<AuditEvent>, t: TaskId, d: Diff, u: TaskId) {
    var names := if |Copied(cfg, t, fs, d)| == |Restored(d)| then DiffPaths(d) else {};
    SavedOf(cfg, fs, u).Some? ==>
      var m := AsDict(SavedOf(cfg, fs, u).value.files);
      forall r :: r in Copied(cfg, t, fs, d) && Visible(cfg, CopyAt(cfg, t, fs, r)) ==>
        var x := Rel(cfg.workspace, CopyAt(cfg, t, fs, r));
        x in names || x in NamedSince(cfg, audit, u)
        || (Join(FilesRoot(cfg, t), r) in fs.files && x in m && m[x] == cfg.hash(fs.files[Join(FilesRoot(cfg, t), r)]))
  }

  /** A rollback, recorded when it succeeds and not when it raises, keeps the account of `u` exactly then. */
  lemma RollbackAccountsIff(cfg: Config, fs: FileSystem, audit: seq<AuditEvent>, t: TaskId, m: Manifest, d: Diff,
                            u: TaskId)
    requires Rolling(cfg, fs, m, d) && Accounts(cfg, fs, audit, u)
    ensures var e := RollbackEffect(cfg, FilesRoot(cfg, t), fs, d);
            (Accounts(cfg, e.fs, if e.ok then audit + [RanRollback(t, false, d)] else audit, u)
             <==> Spared(cfg, fs, audit, t, d, u))
  {
    hide *;
    var e := RollbackEffect(cfg, FilesRoot(cfg, t), fs, d);
    var audit1 := if e.ok then audit + [RanRollback(t, false, d)] else audit;
    var names := if e.ok then DiffPaths(d) else {};
    RollbackTree(cfg, t, fs, m, d);
    RollbackManifests(cfg, t, fs, m, d, u);
    NamedSinceLogged(cfg, audit, RanRollback(t, false, d), u);
    RollbackNames(cfg, t, d);
    assert NamedSince(cfg, audit1, u) == NamedSince(cfg, audit, u) + names;
    AccountsIff(cfg, fs, e.fs, audit, audit1, names, u);
    if SavedOf(cfg, fs, u).Some? {
      TouchedOrNamed(cfg, fs, audit, t, m, d, u, names);
    } else {
      NoManifestSpared(cfg, fs, audit, t, d, u);
    }
  }

  lemma RollbackNames(cfg: Config, t: TaskId, d: Diff)
    ensures Names(cfg, RanRollback(t, false, d)) == DiffPaths(d)
  {
  }

  lemma NoManifestSpared(cfg: Config, fs: FileSystem, audit: seq<AuditEvent>, t: TaskId, d: Diff, u: TaskId)
    requires SavedOf(cfg, fs, u).None?
    ensures Spared(cfg, fs, audit, t, d, u)
  {
  }

  /** The condition on touched paths is the one on copies. */
  lemma TouchedOrNamed(cfg: Config, fs: FileSystem, audit: seq<AuditEvent>, t: TaskId, m: Manifest, d: Diff, u: TaskId,
                       names: set<Path>)
    requires Rolling(cfg, fs, m, d) && Accounts(cfg, fs, audit, u) && SavedOf(cfg, fs, u).Some?
    requires var ok := RollbackEffect(cfg, FilesRoot(cfg, t), fs, d).ok;
             (ok <==> |Copied(cfg, t, fs, d)| == |Restored(d)|) && names == if ok then DiffPaths(d) else {}
    ensures var now := Current(cfg, fs);
            var now1 := Current(cfg, RollbackEffect(cfg, FilesRoot(cfg, t), fs, d).fs);
            ((forall x :: x in Touched(now, now1) && x !in names ==>
                x in NamedSince(cfg, audit, u) || x !in Touched(AsDict(SavedOf(cfg, fs, u).value.files), now1))
             <==> Spared(cfg, fs, audit, t, d, u))
  {
    var e := RollbackEffect(cfg, FilesRoot(cfg, t), fs, d);
    var now, now1, mu := Current(cfg, fs), Current(cfg, e.fs), AsDict(SavedOf(cfg, fs, u).value.files);
    AddedListed(d);
    assert Touched(mu, now) <= NamedSince(cfg, audit, u);
    hide *;
    forall r | r in Copied(cfg, t, fs, d) && Visible(cfg, CopyAt(cfg, t, fs, r))
      ensures var x := Rel(cfg.workspace, CopyAt(cfg, t, fs, r));
              x !in names ==>
                && Join(FilesRoot(cfg, t), r) in fs.files
                && x in now1 && now1[x] == cfg.hash(fs.files[Join(FilesRoot(cfg, t), r)])
    {
      var x := Rel(cfg.workspace, CopyAt(cfg, t, fs, r));
      VisibleRel(cfg, CopyAt(cfg, t, fs, r));
      if x !in names {
        RollbackLeaves(cfg, t, fs, m, d, r, x);
      }
    }
    forall x | x in Touched(now, now1) && x !in names
      ensures exists r :: r in Copied(cfg, t, fs, d) && Visible(cfg, CopyAt(cfg, t, fs, r))
                          && x == Rel(cfg.workspace, CopyAt(cfg, t, fs, r))
    {
      RollbackTouchesWhere(cfg, t, fs, m, d, x);
      var r :| r in Copied(cfg, t, fs, d) && CopyAt(cfg, t, fs, r) == Join(cfg.workspace, x);
      assert x == Rel(cfg.workspace, CopyAt(cfg, t, fs, r));
    }
    SparedIff(cfg, fs, audit, t, d, u, names, now, now1);
  }

  lemma VisibleRel(cfg: Config, p: Path)
    requires Visible(cfg, p)
    ensures Join(cfg.workspace, Rel(cfg.workspace, p)) == p
  {
  }

  lemma AddedListed(d: Diff)
    ensures forall x :: x in d.added ==> x in DiffPaths(d)
  {
  }

  lemma SparedIff(cfg: Config, fs: FileSystem, audit: seq<AuditEvent>, t: TaskId, d: Diff, u: TaskId, names: set<Path>,
                  now: Manifest, now1: Manifest)
    requires SavedOf(cfg, fs, u).Some?
    requires Touched(AsDict(SavedOf(cfg, fs, u).value.files), now) <= NamedSince(cfg, audit, u)
    requires names == if |Copied(cfg, t, fs, d)| == |Restored(d)| then DiffPaths(d) else {}
    requires forall r :: r in Copied(cfg, t, fs, d) && Visible(cfg, CopyAt(cfg, t, fs, r)) ==>
               var x := Rel(cfg.workspace, CopyAt(cfg, t, fs, r));
               x !in names ==>
                 && Join(FilesRoot(cfg, t), r) in fs.files
                 && x in now1 && now1[x] == cfg.hash(fs.files[Join(FilesRoot(cfg, t), r)])
    requires forall x :: x in Touched(now, now1) && x !in names ==>
               exists r :: r in Copied(cfg, t, fs, d) && Visible(cfg, CopyAt(cfg, t, fs, r))
                           && x == Rel(cfg.workspace, CopyAt(cfg, t, fs, r))
    ensures (forall x :: x in Touched(now, now1) && x !in names ==>
               x in NamedSince(cfg, audit, u) || x !in Touched(AsDict(SavedOf(cfg, fs, u).value.files), now1))
       <==> Spared(cfg, fs, audit, t, d, u)
  {
    hide SavedOf;
    hide AsDict;
    hide NamedSince;
    hide Copied;
    hide CopyAt;
    hide Visible;
    hide Rel;
    hide Join;
    hide FilesRoot;
    hide DiffPaths;
    hide Restored;
  }

  /** Then a rollback touches only what its diff lists, even if it raises. */
  lemma RollbackTouches(cfg: Config, t: TaskId, fs: FileSystem, m: Manifest, d: Diff)
    requires Rolling(cfg, fs, m, d) && NoStray(cfg, t, fs, d)
    ensures Touched(Current(cfg, fs), Current(cfg, RollbackEffect(cfg, FilesRoot(cfg, t), fs, d).fs)) <= DiffPaths(d)
  {
    var now, now1 := Current(cfg, fs), Current(cfg, RollbackEffect(cfg, FilesRoot(cfg, t), fs, d).fs);
    hide RollbackEffect;
    hide Current;
    hide Touched;
    forall x | x in Touched(now, now1)
      ensures x in DiffPaths(d)
    {
      ListedUnlessStray(cfg, t, fs, m, d, x);
    }
  }

  /**
    For the task rolled back itself, whether the rollback succeeds or raises: it stays accounted for exactly
    when each copy that was made into a directory under a new name has been named before.
   */
  lemma OwnRollbackIff(cfg: Config, fs: FileSystem, audit: seq<AuditEvent>, t: TaskId, m: Manifest, d: Diff)
    requires Rolling(cfg, fs, m, d) && Accounts(cfg, fs, audit, t)
    requires SavedOf(cfg, fs, t).Some? && m == AsDict(SavedOf(cfg, fs, t).value.files)
    ensures var e := RollbackEffect(cfg, FilesRoot(cfg, t), fs, d);
            Accounts(cfg, e.fs, if e.ok then audit + [RanRollback(t, false, d)] else audit, t)
            <==> StraysNamed(cfg, fs, audit, t, d)
  {
    DiffPathsMeaning(d, m, Current(cfg, fs));
    assert DiffPaths(d) <= NamedSince(cfg, audit, t);
    hide *;
    forall r | r in Copied(cfg, t, fs, d) && Strays(cfg, t, fs, d, r)
      ensures var x := Rel(cfg.workspace, CopyAt(cfg, t, fs, r));
              Visible(cfg, CopyAt(cfg, t, fs, r)) && x !in DiffPaths(d) && x !in m
    {
      StrayFacts(cfg, t, fs, m, d, r);
      StrayIsNew(cfg, t, fs, m, d, r);
    }
    forall r | r in Copied(cfg, t, fs, d) && Visible(cfg, CopyAt(cfg, t, fs, r)) && !Strays(cfg, t, fs, d, r)
      ensures Rel(cfg.workspace, CopyAt(cfg, t, fs, r)) in DiffPaths(d)
    {
      VisibleRel(cfg, CopyAt(cfg, t, fs, r));
      CopiedRestored(cfg, t, fs, d, r);
      if Rel(cfg.workspace, CopyAt(cfg, t, fs, r)) !in DiffPaths(d) {
        UnlistedIsStray(cfg, t, fs, m, d, r, Rel(cfg.workspace, CopyAt(cfg, t, fs, r)));
      }
    }
    OwnSpared(cfg, fs, audit, t, m, d);
    RollbackAccountsIff(cfg, fs, audit, t, m, d, t);
  }

  /** What a caller can check for it before the rollback. */
  ghost predicate StraysNamed(cfg: Config, fs: FileSystem, audit: seq<AuditEvent>, t: TaskId, d: Diff) {
    forall r :: r in Copied(cfg, t, fs, d) && Strays(cfg, t, fs, d, r) ==>
      Rel(cfg.workspace, CopyAt(cfg, t, fs, r)) in NamedSince(cfg, audit, t)
  }

  lemma StrayIsNew(cfg: Config, t: TaskId, fs: FileSystem, m: Manifest, d: Diff, r: Path)
    requires Rolling(cfg, fs, m, d) && Strays(cfg, t, fs, d, r)
    ensures Visible(cfg, CopyAt(cfg, t, fs, r)) && Rel(cfg.workspace, CopyAt(cfg, t, fs, r)) !in m
  {
    InsideIsNew(cfg, t, fs, m, r, Rel(cfg.workspace, CopyAt(cfg, t, fs, r)));
    hide CopyAt;
    hide Honest;
  }

  lemma CopiedRestored(cfg: Config, t: TaskId, fs: FileSystem, d: Diff, r: Path)
    requires r in Copied(cfg, t, fs, d)
    ensures r in Restored(d)
  {
    hide Done;
    hide Restored;
  }

  lemma OwnSpared(cfg: Config, fs: FileSystem, audit: seq<AuditEvent>, t: TaskId, m: Manifest, d: Diff)
    requires SavedOf(cfg, fs, t).Some? && m == AsDict(SavedOf(cfg, fs, t).value.files)
    requires DiffPaths(d) <= NamedSince(cfg, audit, t)
    requires forall r :: r in Copied(cfg, t, fs, d) && Strays(cfg, t, fs, d, r) ==>
               var x := Rel(cfg.workspace, CopyAt(cfg, t, fs, r));
               Visible(cfg, CopyAt(cfg, t, fs, r)) && x !in DiffPaths(d) && x !in m
    requires forall r :: r in Copied(cfg, t, fs, d) && Visible(cfg, CopyAt(cfg, t, fs, r)) && !Strays(cfg, t, fs, d, r)
               ==> Rel(cfg.workspace, CopyAt(cfg, t, fs, r)) in DiffPaths(d)
    ensures Spared(cfg, fs, audit, t, d, t) <==> StraysNamed(cfg, fs, audit, t, d)
  {
    hide SavedOf;
    hide AsDict;
    hide NamedSince;
    hide Copied;
    hide CopyAt;
    hide Strays;
    hide Visible;
    hide Rel;
    hide Join;
    hide FilesRoot;
    hide DiffPaths;
    hide Restored;
  }

  /** So when no copy strays it stays so, recorded or not. */
  lemma RaisedTaskAccounts(cfg: Config, fs: FileSystem, audit: seq<AuditEvent>, t: TaskId, m: Manifest, d: Diff)
    requires Rolling(cfg, fs, m, d) && NoStray(cfg, t, fs, d) && Accounts(cfg, fs, audit, t)
    requires SavedOf(cfg, fs, t).Some? && m == AsDict(SavedOf(cfg, fs, t).value.files)
    ensures Accounts(cfg, RollbackEffect(cfg, FilesRoot(cfg, t), fs, d).fs, audit, t)
  {
    var now := Current(cfg, fs);
    RollbackTouches(cfg, t, fs, m, d);
    DiffPathsMeaning(d, m, now);
    RollbackManifests(cfg, t, fs, m, d, t);
    assert Touched(m, now) <= NamedSince(cfg, audit, t);
    hide *;
    var e := RollbackEffect(cfg, FilesRoot(cfg, t), fs, d);
    assert NamedSince(cfg, audit, t) == NamedSince(cfg, audit, t) + {};
    AccountsIff(cfg, fs, e.fs, audit, audit, {}, t);
  }

  lemma DiffPathsMeaning(d: Diff, before: Manifest, after: Manifest)
    requires IsDiff(d, before, after)
    ensures DiffPaths(d) == Touched(before, after)
  {
  }

  // ----- one call, as a step -----

  /** What the wrapper's calls work on, and the calls with what came of them. */
  datatype World = World(fs: FileSystem, audit: seq<AuditEvent>)

  datatype Call =
    | Start(task: TaskId, ok: bool)
    | Write(task: TaskId, path: Path, content: Content, ok: bool)
    | Run(task: TaskId, modified: Option<seq<Path>>)
    | RollBack(task: TaskId, dryRun: bool, diff: Diff, ok: bool)
    | Finish(task: TaskId, success: bool, result: Option<Diff>)

  /** What each call does to them: the contracts of the methods of SecureAgentWrapper. */
  ghost predicate Step(cfg: Config, w: World, c: Call, w1: World) {
    match c
    case Start(t, ok) => exists rels, records :: Starts(cfg, w, t, ok, rels, records, w1)
    case Write(t, path, content, ok) =>
      && (Effect(w1.fs, ok) == WriteText(w.fs, path, content) || (w1.fs == w.fs && !ok))
      && w1.audit == if ok then w.audit + [WroteFile(t, path)] else w.audit
    case Run(t, Some(modified)) =>
      && WellFormed(w1.fs) && Sorts(modified, Touched(Current(cfg, w.fs), Current(cfg, w1.fs)))
      && w1.audit == w.audit + [RanCommand(t, modified)]
    case Run(t, None) => w1.fs == w.fs && (w1.audit == w.audit || w1.audit == w.audit + [RanCommand(t, [])])
    case RollBack(t, dryRun, d, ok) => RollsBack(cfg, w, t, dryRun, d, ok, w1)
    case Finish(t, success, Some(d)) =>
      && SavedOf(cfg, w.fs, t).Some? && IsDiff(d, AsDict(SavedOf(cfg, w.fs, t).value.files), Current(cfg, w.fs))
      && w1 == World(w.fs, w.audit + [TaskEnd(t, success, d)])
    case Finish(t, _, None) => w1 == w
  }

  ghost predicate Starts(cfg: Config, w: World, t: TaskId, ok: bool, rels: seq<Path>, records: seq<Record>, w1: World) {
    && TaskName(t) && (ok ==> AsDict(records) == Current(cfg, w.fs))
    && Effect(w1.fs, ok) == CreateEffect(cfg, t, w.fs, rels, records)
    && w1.audit == if ok then w.audit + [TaskStart(t)] else w.audit
  }

  ghost predicate RollsBack(cfg: Config, w: World, t: TaskId, dryRun: bool, d: Diff, ok: bool, w1: World) {
    var saved := SavedOf(cfg, w.fs, t);
    && (saved.Some? ==> IsDiff(d, AsDict(saved.value.files), Current(cfg, w.fs)))
    && (if saved.Some? && !dryRun then Effect(w1.fs, ok) == RollbackEffect(cfg, saved.value.filesRoot, w.fs, d)
        else w1.fs == w.fs)
    && w1.audit == if ok then w.audit + [RanRollback(t, dryRun, d)] else w.audit
  }

  // ----- the wrapper -----

  class SecureAgentWrapper {
    const snapshots: SnapshotManager
    var activeTasks: set<TaskId>
    var taskMeta: set<TaskId>  // the task files saved under the audit root
    var audit: seq<AuditEvent>

    /**
      The snapshot area is hidden from scans. So must the audit area be, whose files are not in the tree here:
      elsewhere in the workspace, each record would change a visible file that no record names.
     */
    ghost predicate Valid()
      reads this, snapshots
    {
      WellFormed(snapshots.fs) && Hidden(snapshots.cfg) && Faithful(snapshots.cfg)
    }

    ghost predicate Accounted()
      reads this, snapshots
    {
      AllAccount(snapshots.cfg, snapshots.fs, audit)
    }

    /** A new wrapper, over the snapshots, task files and logs that earlier ones may have left. */
    constructor (snapshots: SnapshotManager, taskMeta: set<TaskId>, audit: seq<AuditEvent>)
      requires WellFormed(snapshots.fs) && Hidden(snapshots.cfg) && Faithful(snapshots.cfg)
      ensures this.snapshots == snapshots && activeTasks == {} && this.taskMeta == taskMeta && this.audit == audit
      ensures Valid() && (Accounted() <==> AllAccount(snapshots.cfg, snapshots.fs, audit))
    {
      this.snapshots := snapshots;
      this.activeTasks, this.taskMeta, this.audit := {}, taskMeta, audit;
    }

    /** `_get_task`: from memory, else from its saved file; raises for an unknown task. */
    method GetTask(t: TaskId) returns (known: bool)
      modifies this`activeTasks
      ensures known <==> t in old(activeTasks) + taskMeta
      ensures activeTasks == if known then old(activeTasks) + {t} else old(activeTasks)
    {
      if t in activeTasks {
        return true;
      }
      if t !in taskMeta {
        return false;
      }
      activeTasks := activeTasks + {t};
      known := true;
    }

    /** `start_task`, under the id that was drawn for it: snapshot first, then the log record. */
    method StartTask(t: TaskId) returns (ok: bool)
      requires Valid() && TaskName(t)
      modifies this, snapshots`fs
      ensures Valid() && (old(Accounted()) ==> Accounted())
      ensures Current(snapshots.cfg, snapshots.fs) == Current(snapshots.cfg, old(snapshots.fs))
      ensures ok ==> t in activeTasks && t in taskMeta
      ensures ok ==> var saved := SavedOf(snapshots.cfg, snapshots.fs, t);
                     saved.Some? && AsDict(saved.value.files) == Current(snapshots.cfg, snapshots.fs)
      ensures audit == if ok then old(audit) + [TaskStart(t)] else old(audit)
      ensures Step(snapshots.cfg, World(old(snapshots.fs), old(audit)), Start(t, ok), World(snapshots.fs, audit))
    {
      ghost var cfg, fs0, audit0 := snapshots.cfg, snapshots.fs, audit;
      ghost var rels, records;
      ok, rels, records := snapshots.CreateSnapshot(t);
      CurrentIs(cfg, fs0);
      hide AllAccount, WellFormed, Hidden, Faithful, Current, SavedOf, AsDict, CreateEffect, Scan;
      StartedWell(cfg, t, fs0, rels, records, audit0);
      assert Starts(cfg, World(fs0, audit0), t, ok, rels, records,
                    World(snapshots.fs, if ok then audit0 + [TaskStart(t)] else audit0));
      if !ok {
        return;
      }
      activeTasks := activeTasks + {t};
      taskMeta := taskMeta + {t};
      audit := audit + [TaskStart(t)];
    }

    /** `_write_file`, on a path the sandbox may refuse. Without an answer it raised and logged nothing. */
    method WriteFile(t: TaskId, path: Path, content: Content, allowed: bool) returns (written: bool)
      requires Valid()
      modifies this, snapshots`fs
      ensures Valid() && taskMeta == old(taskMeta)
      ensures written ==> t in old(activeTasks) + taskMeta && allowed
                          && Effect(snapshots.fs, true) == WriteText(old(snapshots.fs), path, content)
      ensures !written ==> snapshots.fs.files == old(snapshots.fs).files
      ensures audit == if written then old(audit) + [WroteFile(t, path)] else old(audit)
      ensures Step(snapshots.cfg, World(old(snapshots.fs), old(audit)), Write(t, path, content, written),
                   World(snapshots.fs, audit))
      ensures old(Accounted()) ==>
                (Accounted() <==> (written ==>
                   forall u :: TaskName(u) && path == ManifestPath(snapshots.cfg, u) ==>
                     Admits(snapshots.cfg, old(snapshots.fs), old(audit), u, content)))
    {
      ghost var cfg, fs0 := snapshots.cfg, snapshots.fs;
      var known := GetTask(t);
      if !known || !allowed {
        return false;
      }
      var e := WriteText(snapshots.fs, path, content);
      WriteTouches(cfg, fs0, path, content);
      WriteAllIff(cfg, fs0, audit, t, path, content);
      WriteFails(fs0, path, content);
      snapshots.fs := e.fs;
      hide AllAccount, WellFormed, Hidden, Faithful, Current, SavedOf, AsDict, WriteText, Admits;
      if !e.ok {
        return false;
      }
      audit := audit + [WroteFile(t, path)];
      written := true;
    }

    /** `_diff_manifests`: the sorted union of what was added, deleted and changed. */
    static method DiffManifests(beforeManifest: seq<Record>, afterManifest: seq<Record>) returns (r: seq<Path>)
      ensures Sorts(r, Touched(AsDict(beforeManifest), AsDict(afterManifest)))
    {
      var before, after := AsDict(beforeManifest), AsDict(afterManifest);
      var touched: seq<Path> := [];
      var todo := after.Keys;
      while todo != {}
        invariant todo <= after.Keys
        invariant forall p :: p in touched <==> p in Added(before, after) + Changed(before, after) && p !in todo
        decreases |todo|
      {
        var p :| p in todo;
        if p !in before || before[p] != after[p] {
          touched := touched + [p];
        }
        todo := todo - {p};
      }
      todo := before.Keys;
      while todo != {}
        invariant todo <= before.Keys
        invariant forall p :: p in touched <==>
                    p in Added(before, after) + Changed(before, after) || (p in Deleted(before, after) && p !in todo)
        decreases |todo|
      {
        var p :| p in todo;
        if p !in after {
          touched := touched + [p];
        }
        todo := todo - {p};
      }
      r := Sort(set p | p in touched);
    }

    /**
      `_run_command`: approval and policy first, then scans around the run. `result` is the file system
      that the command leaves; `modified` is nothing when the call raised instead.
     */
    method RunCommand(t: TaskId, decision: Decision, approved: bool, result: FileSystem)
      returns (modified: Option<seq<Path>>)
      requires Valid() && WellFormed(result)
      modifies this, snapshots`fs
      ensures Valid()
      ensures modified.Some? <==>
                t in old(activeTasks) + old(taskMeta) && (decision == Allow || (decision == NeedsApproval && approved))
      ensures snapshots.fs == if modified.Some? then result else old(snapshots.fs)
      ensures modified.Some? ==>
                && Sorts(modified.value,
                         Touched(Current(snapshots.cfg, old(snapshots.fs)), Current(snapshots.cfg, result)))
                && audit == old(audit) + [RanCommand(t, modified.value)]
      ensures modified.None? ==>
                audit == if t in old(activeTasks) + old(taskMeta) && decision == Deny
                         then old(audit) + [RanCommand(t, [])]
                         else old(audit)
      ensures Step(snapshots.cfg, World(old(snapshots.fs), old(audit)), Run(t, modified), World(snapshots.fs, audit))
      ensures old(Accounted()) && (modified.None? || SameArea(snapshots.cfg, old(snapshots.fs), result)) ==> Accounted()
      ensures old(Accounted()) && modified.Some? ==>
                (Accounted() <==>
                   forall u ::
                     TaskName(u)
                     && SavedOf(snapshots.cfg, result, u) != SavedOf(snapshots.cfg, old(snapshots.fs), u) ==>
                       Accounts(snapshots.cfg, result, audit, u))
    {
      ghost var cfg, fs0, audit0 := snapshots.cfg, snapshots.fs, audit;
      hide AllAccount, WellFormed, Hidden, Faithful, Current, SavedOf, AsDict, Accounts, SameArea, Sorts, Touched, Scan,
           Step;
      NoRun(cfg, World(fs0, audit0), t);
      var known := GetTask(t);
      if !known || (decision == NeedsApproval && !approved) {
        return None;
      }
      if decision == Deny {
        audit := audit + [RanCommand(t, [])];
        QuietAll(cfg, fs0, audit0, RanCommand(t, []));
        return None;
      }
      var before, _, _ := snapshots.ScanWorkspace(None);
      snapshots.fs := result;
      var after, _, _ := snapshots.ScanWorkspace(None);
      CurrentIs(cfg, fs0);
      CurrentIs(cfg, result);
      var touched := DiffManifests(before, after);
      audit := audit + [RanCommand(t, touched)];
      modified := Some(touched);
      CommandAllIff(cfg, fs0, result, audit0, t, touched);
      DidRun(cfg, World(fs0, audit0), t, touched, result);
    }

    /**
      `rollback_task`. A rollback that raises writes no record. Both ways the contract says exactly when the
      log still accounts for every task.
     */
    method RollbackTask(t: TaskId, dryRun: bool) returns (r: Option<Diff>, ghost d: Diff)
      requires Valid()
      modifies this, snapshots`fs
      ensures Valid()
      ensures audit == if r.Some? then old(audit) + [RanRollback(t, dryRun, r.value)] else old(audit)
      ensures r.Some? ==> r == Some(d)
      ensures Step(snapshots.cfg, World(old(snapshots.fs), old(audit)), RollBack(t, dryRun, d, r.Some?),
                   World(snapshots.fs, audit))
      ensures var saved := SavedOf(snapshots.cfg, old(snapshots.fs), t);
              && (saved.Some? ==>
                    IsDiff(d, AsDict(saved.value.files), Current(snapshots.cfg, old(snapshots.fs))))
              && (saved.Some? && !dryRun ==>
                    Effect(snapshots.fs, r.Some?)
                    == RollbackEffect(snapshots.cfg, saved.value.filesRoot, old(snapshots.fs), d))
              && (saved.None? || dryRun ==> snapshots.fs == old(snapshots.fs))
              && (old(Accounted()) && (saved.None? || dryRun) ==> Accounted())
              && (old(Accounted()) && TaskName(t) && saved.Some? && !dryRun ==>
                    (Accounted() <==>
                       forall u :: TaskName(u) ==> Spared(snapshots.cfg, old(snapshots.fs), old(audit), t, d, u)))
    {
      ghost var cfg, fs0, audit0 := snapshots.cfg, snapshots.fs, audit;
      hide AllAccount, WellFormed, Hidden, Faithful, Current, SavedOf, AsDict, Spared, IsDiff, RollbackEffect, Scan,
           Step;
      r, d := snapshots.RollbackSnapshot(t, dryRun);
      CurrentIs(cfg, fs0);
      if r.Some? {
        audit := audit + [RanRollback(t, dryRun, r.value)];
      }
      RollbackOutcome(cfg, fs0, audit0, t, dryRun, d, snapshots.fs, r.Some?, audit);
      IsRollBack(cfg, World(fs0, audit0), t, dryRun, d, r.Some?, World(snapshots.fs, audit));
    }

    /**
      `finish_task`: the diff against the task's manifest. While the log accounts for the task, every path in
      it was written, or changed by a command, or listed by a rollback, since the task started.
     */
    method FinishTask(t: TaskId, success: bool) returns (r: Option<Diff>)
      requires Valid()
      modifies this, snapshots`fs
      ensures Valid() && snapshots.fs == old(snapshots.fs) && (old(Accounted()) ==> Accounted())
      ensures r.Some? <==> t in old(activeTasks) + old(taskMeta) && SavedOf(snapshots.cfg, snapshots.fs, t).Some?
      ensures r.Some? ==>
                && IsDiff(r.value, AsDict(SavedOf(snapshots.cfg, snapshots.fs, t).value.files),
                          Current(snapshots.cfg, snapshots.fs))
                && (old(Accounted()) && TaskName(t) ==> DiffPaths(r.value) <= NamedSince(snapshots.cfg, old(audit), t))
                && audit == old(audit) + [TaskEnd(t, success, r.value)]
      ensures r.None? ==> audit == old(audit)
      ensures Step(snapshots.cfg, World(old(snapshots.fs), old(audit)), Finish(t, success, r),
                   World(snapshots.fs, audit))
    {
      ghost var cfg, fs0, audit0 := snapshots.cfg, snapshots.fs, audit;
      hide AllAccount, WellFormed, Hidden, Faithful, Current, SavedOf, AsDict, IsDiff, DiffPaths,
           NamedSince, Scan, Step;
      NoFinish(cfg, World(fs0, audit0), t, success);
      var known := GetTask(t);
      if !known {
        return None;
      }
      r := snapshots.DiffSnapshot(t);
      if r.None? {
        return;
      }
      CurrentIs(cfg, fs0);
      FinishExplained(cfg, fs0, audit0, t, r.value);
      IsFinish(cfg, World(fs0, audit0), t, success, r.value);
      audit := audit + [TaskEnd(t, success, r.value)];
      QuietAll(cfg, fs0, audit0, TaskEnd(t, success, r.value));
    }
  }

  // ----- the same for all tasks at once -----

  lemma CurrentIs(cfg: Config, fs: FileSystem)
    ensures Current(cfg, fs) == Digests(cfg, Scan(cfg, fs))
  {
  }

  lemma IsRollBack(cfg: Config, w: World, t: TaskId, dryRun: bool, d: Diff, ok: bool, w1: World)
    requires RollsBack(cfg, w, t, dryRun, d, ok, w1)
    ensures Step(cfg, w, RollBack(t, dryRun, d, ok), w1)
  {
    hide RollsBack;
  }

  lemma NoRun(cfg: Config, w: World, t: TaskId)
    ensures Step(cfg, w, Run(t, None), w)
    ensures Step(cfg, w, Run(t, None), World(w.fs, w.audit + [RanCommand(t, [])]))
  {
  }

  lemma DidRun(cfg: Config, w: World, t: TaskId, modified: seq<Path>, result: FileSystem)
    requires WellFormed(result) && Sorts(modified, Touched(Current(cfg, w.fs), Current(cfg, result)))
    ensures Step(cfg, w, Run(t, Some(modified)), World(result, w.audit + [RanCommand(t, modified)]))
  {
    hide WellFormed, Sorts, Touched, Current;
  }

  lemma NoFinish(cfg: Config, w: World, t: TaskId, success: bool)
    ensures Step(cfg, w, Finish(t, success, None), w)
  {
  }

  lemma IsFinish(cfg: Config, w: World, t: TaskId, success: bool, d: Diff)
    requires SavedOf(cfg, w.fs, t).Some? && IsDiff(d, AsDict(SavedOf(cfg, w.fs, t).value.files), Current(cfg, w.fs))
    ensures Step(cfg, w, Finish(t, success, Some(d)), World(w.fs, w.audit + [TaskEnd(t, success, d)]))
  {
    hide SavedOf;
    hide AsDict;
    hide IsDiff;
    hide Current;
  }

  lemma QuietAll(cfg: Config, fs: FileSystem, audit: seq<AuditEvent>, ev: AuditEvent)
    requires !ev.TaskStart?
    ensures AllAccount(cfg, fs, audit) ==> AllAccount(cfg, fs, audit + [ev])
  {
    hide Accounts;
    if AllAccount(cfg, fs, audit) {
      forall u | TaskName(u)
        ensures Accounts(cfg, fs, audit + [ev], u)
      {
        QuietAccounts(cfg, fs, fs, audit, u);
      }
    }
  }

  /** All that `start_task` promises, for the tree its snapshot left. */
  lemma StartedWell(cfg: Config, t: TaskId, fs: FileSystem, rels: seq<Path>, records: seq<Record>,
                    audit: seq<AuditEvent>)
    requires Faithful(cfg) && Hidden(cfg) && WellFormed(fs) && TaskName(t)
    requires CreateEffect(cfg, t, fs, rels, records).ok ==> AsDict(records) == Digests(cfg, Scan(cfg, fs))
    ensures var e := CreateEffect(cfg, t, fs, rels, records);
            && WellFormed(e.fs) && Current(cfg, e.fs) == Current(cfg, fs)
            && (e.ok ==> var saved := SavedOf(cfg, e.fs, t);
                         saved.Some? && AsDict(saved.value.files) == Current(cfg, e.fs))
            && (AllAccount(cfg, fs, audit) ==>
                  AllAccount(cfg, e.fs, if e.ok then audit + [TaskStart(t)] else audit))
  {
    hide *;
    var e := CreateEffect(cfg, t, fs, rels, records);
    CurrentIs(cfg, fs);
    CreateWellFormed(cfg, t, fs, rels, records);
    SnapshotTouchesNothing(cfg, t, fs, rels, records);
    if e.ok {
      CreatedManifest(cfg, t, fs, rels, records);
    }
    if AllAccount(cfg, fs, audit) {
      var audit1 := if e.ok then audit + [TaskStart(t)] else audit;
      forall u | TaskName(u)
        ensures Accounts(cfg, e.fs, audit1, u)
      {
        OneAccount(cfg, fs, audit, u);
        StartAccounts(cfg, t, fs, rels, records, audit, u);
      }
      AreAllAccount(cfg, e.fs, audit1);
    }
  }

  lemma OneAccount(cfg: Config, fs: FileSystem, audit: seq<AuditEvent>, u: TaskId)
    requires AllAccount(cfg, fs, audit) && TaskName(u)
    ensures Accounts(cfg, fs, audit, u)
  {
  }

  lemma AreAllAccount(cfg: Config, fs: FileSystem, audit: seq<AuditEvent>)
    requires forall u :: TaskName(u) ==> Accounts(cfg, fs, audit, u)
    ensures AllAccount(cfg, fs, audit)
  {
  }

  lemma WriteFails(fs: FileSystem, p: Path, content: Content)
    ensures var e := WriteText(fs, p, content); !e.ok ==> e.fs.files == fs.files
  {
  }

  lemma WriteAllIff(cfg: Config, fs: FileSystem, audit: seq<AuditEvent>, t: TaskId, p: Path, content: Content)
    requires Hidden(cfg) && WellFormed(fs)
    ensures var e := WriteText(fs, p, content);
            AllAccount(cfg, fs, audit) ==>
              && (AllAccount(cfg, e.fs, if e.ok then audit + [WroteFile(t, p)] else audit) <==>
                    (e.ok ==> forall u :: TaskName(u) && p == ManifestPath(cfg, u) ==>
                                   Admits(cfg, fs, audit, u, content)))
  {
    if AllAccount(cfg, fs, audit) {
      var e := WriteText(fs, p, content);
      var audit1 := if e.ok then audit + [WroteFile(t, p)] else audit;
      WriteFails(fs, p, content);
      hide Accounts;
      hide Admits;
      hide WriteText;
      forall u | TaskName(u)
        ensures p != ManifestPath(cfg, u) || !e.ok ==> Accounts(cfg, e.fs, audit1, u)
        ensures p == ManifestPath(cfg, u) && e.ok ==>
                (Accounts(cfg, e.fs, audit1, u) <==> Admits(cfg, fs, audit, u, content))
      {
        if p != ManifestPath(cfg, u) {
          WriteAccounts(cfg, fs, audit, t, p, content, u);
        } else if e.ok {
          ManifestWriteIff(cfg, fs, audit, t, content, u);
        } else {
          SameArea1(cfg, fs, e.fs, u);
          SameFilesSameScan(cfg, fs, e.fs);
          QuietAccounts(cfg, fs, e.fs, audit, u);
        }
      }
      hide ManifestPath;
    }
  }

  lemma CommandAllIff(cfg: Config, fs: FileSystem, result: FileSystem, audit: seq<AuditEvent>, t: TaskId,
                      touched: seq<Path>)
    requires Sorts(touched, Touched(Current(cfg, fs), Current(cfg, result)))
    ensures var audit1 := audit + [RanCommand(t, touched)];
            AllAccount(cfg, fs, audit) ==>
              && (AllAccount(cfg, result, audit1) <==>
                    forall u :: TaskName(u) && SavedOf(cfg, result, u) != SavedOf(cfg, fs, u) ==>
                      Accounts(cfg, result, audit1, u))
              && (SameArea(cfg, fs, result) ==> AllAccount(cfg, result, audit1))
  {
    var audit1 := audit + [RanCommand(t, touched)];
    hide Accounts;
    hide SavedOf;
    hide Current;
    hide Sorts;
    if AllAccount(cfg, fs, audit) {
      forall u | TaskName(u) && SavedOf(cfg, result, u) == SavedOf(cfg, fs, u)
        ensures Accounts(cfg, result, audit1, u)
      {
        CommandAccounts(cfg, fs, result, audit, t, touched, u);
      }
      forall u | SameArea(cfg, fs, result)
        ensures SavedOf(cfg, result, u) == SavedOf(cfg, fs, u)
      {
        SameAreaSaved(cfg, fs, result, u);
      }
    }
  }

  lemma RollbackAllIff(cfg: Config, fs: FileSystem, audit: seq<AuditEvent>, t: TaskId, d: Diff)
    requires Hidden(cfg) && WellFormed(fs)
    requires SavedOf(cfg, fs, t).Some? ==> IsDiff(d, AsDict(SavedOf(cfg, fs, t).value.files), Current(cfg, fs))
    ensures forall from :: WellFormed(RollbackEffect(cfg, from, fs, d).fs)
    ensures SavedOf(cfg, fs, t).Some? && TaskName(t) && AllAccount(cfg, fs, audit) ==>
              var e := RollbackEffect(cfg, SavedOf(cfg, fs, t).value.filesRoot, fs, d);
              AllAccount(cfg, e.fs, if e.ok then audit + [RanRollback(t, false, d)] else audit)
              <==> forall u :: TaskName(u) ==> Spared(cfg, fs, audit, t, d, u)
  {
    hide *;
    forall from
      ensures WellFormed(RollbackEffect(cfg, from, fs, d).fs)
    {
      KeepsWellFormed(cfg, from, fs, d);
    }
    if SavedOf(cfg, fs, t).Some? && TaskName(t) && AllAccount(cfg, fs, audit) {
      var saved := SavedOf(cfg, fs, t).value;
      OneAccount(cfg, fs, audit, t);
      IsRolling(cfg, fs, audit, t, d);
      var e := RollbackEffect(cfg, FilesRoot(cfg, t), fs, d);
      var audit1 := if e.ok then audit + [RanRollback(t, false, d)] else audit;
      forall u | TaskName(u)
        ensures Accounts(cfg, e.fs, audit1, u) <==> Spared(cfg, fs, audit, t, d, u)
      {
        OneAccount(cfg, fs, audit, u);
        RollbackAccountsIff(cfg, fs, audit, t, AsDict(saved.files), d, u);
      }
      AllSpared(cfg, fs, e.fs, audit, audit1, t, d);
    }
  }

  /** The two ways a rollback may go, for the tree and the log it leaves. */
  lemma RollbackOutcome(cfg: Config, fs: FileSystem, audit: seq<AuditEvent>, t: TaskId, dryRun: bool, d: Diff,
                        fs1: FileSystem, ok: bool, audit1: seq<AuditEvent>)
    requires Hidden(cfg) && WellFormed(fs)
    requires SavedOf(cfg, fs, t).Some? ==> IsDiff(d, AsDict(SavedOf(cfg, fs, t).value.files), Current(cfg, fs))
    requires if SavedOf(cfg, fs, t).Some? && !dryRun
             then Effect(fs1, ok) == RollbackEffect(cfg, SavedOf(cfg, fs, t).value.filesRoot, fs, d)
             else fs1 == fs
    requires audit1 == if ok then audit + [RanRollback(t, dryRun, d)] else audit
    ensures WellFormed(fs1)
    ensures AllAccount(cfg, fs, audit) && (SavedOf(cfg, fs, t).None? || dryRun) ==> AllAccount(cfg, fs1, audit1)
    ensures AllAccount(cfg, fs, audit) && TaskName(t) && SavedOf(cfg, fs, t).Some? && !dryRun ==>
              (AllAccount(cfg, fs1, audit1) <==> forall u :: TaskName(u) ==> Spared(cfg, fs, audit, t, d, u))
  {
    hide *;
    RollbackAllIff(cfg, fs, audit, t, d);
    QuietAll(cfg, fs, audit, RanRollback(t, dryRun, d));
  }

  lemma IsRolling(cfg: Config, fs: FileSystem, audit: seq<AuditEvent>, t: TaskId, d: Diff)
    requires Hidden(cfg) && WellFormed(fs) && SavedOf(cfg, fs, t).Some? && Accounts(cfg, fs, audit, t)
    requires IsDiff(d, AsDict(SavedOf(cfg, fs, t).value.files), Current(cfg, fs))
    ensures Rolling(cfg, fs, AsDict(SavedOf(cfg, fs, t).value.files), d)
    ensures SavedOf(cfg, fs, t).value.filesRoot == FilesRoot(cfg, t)
  {
    hide SavedOf;
    hide AsDict;
    hide Current;
    hide FilesRoot;
  }

  lemma AllSpared(cfg: Config, fs: FileSystem, fs1: FileSystem, audit: seq<AuditEvent>, audit1: seq<AuditEvent>,
                  t: TaskId,
                  d: Diff)
    requires forall u :: TaskName(u) ==> (Accounts(cfg, fs1, audit1, u) <==> Spared(cfg, fs, audit, t, d, u))
    ensures AllAccount(cfg, fs1, audit1) <==> forall u :: TaskName(u) ==> Spared(cfg, fs, audit, t, d, u)
  {
    hide Accounts;
    hide Spared;
  }

  lemma FinishExplained(cfg: Config, fs: FileSystem, audit: seq<AuditEvent>, t: TaskId, d: Diff)
    requires SavedOf(cfg, fs, t).Some? && IsDiff(d, AsDict(SavedOf(cfg, fs, t).value.files), Current(cfg, fs))
    ensures AllAccount(cfg, fs, audit) && TaskName(t) ==> DiffPaths(d) <= NamedSince(cfg, audit, t)
  {
    DiffPathsMeaning(d, AsDict(SavedOf(cfg, fs, t).value.files), Current(cfg, fs));
    if AllAccount(cfg, fs, audit) && TaskName(t) {
      OneAccount(cfg, fs, audit, t);
    }
    hide Current;
    hide SavedOf;
    hide AsDict;
    hide NamedSince;
  }
}
