/**
  A file format for manifests that can be read back, and trees on which the audit log of Wrapper stops
  accounting for the workspace: a rollback that copies into a directory, and one that raises half-way.
 */
module WrapperExamples {
  import opened Basics
  import opened Files
  import opened PathOrder
  import opened Snapshot
  import opened Rollback
  import opened SnapshotRuns
  import opened Wrapper

  // ----- a format that is read back -----

  /** A string behind its length in unary. */
  function Text(s: string): Content {
    seq(|s|, _ => '1') + "0" + s
  }

  function Ones(c: Content): (n: nat)
    ensures n <= |c| && (n < |c| ==> c[n] != '1') && forall i :: 0 <= i < n ==> c[i] == '1'
  {
    if c != "" && c[0] == '1' then 1 + Ones(c[1..]) else 0
  }

  /** The string at the start of `c`, and what follows it. */
  function ReadText(c: Content): (r: Option<(string, Content)>)
    ensures r.Some? ==> |r.value.1| < |c|
  {
    var n := Ones(c);
    if 2 * n + 1 <= |c| then Some((c[n + 1..2 * n + 1], c[2 * n + 1..])) else None
  }

  lemma TextRead(s: string, more: Content)
    ensures ReadText(Text(s) + more) == Some((s, more))
  {
    var c := Text(s) + more;
    assert c[|s|] == '0' && forall i :: 0 <= i < |s| ==> c[i] == '1';
    assert Ones(c) == |s|;
    assert c[|s| + 1..2 * |s| + 1] == s && c[2 * |s| + 1..] == more;
  }

  function RenderRecords(records: seq<Record>): Content {
    if records == [] then ""
    else Text(records[0].path) + (Text(records[0].sha256) + RenderRecords(records[1..]))
  }

  function ParseRecords(c: Content): Option<seq<Record>>
    decreases |c|
  {
    if c == "" then Some([])
    else
      var path := ReadText(c);
      if path.None? then None
      else
        var sha256 := ReadText(path.value.1);
        if sha256.None? then None
        else
          var rest := ParseRecords(sha256.value.1);
          if rest.None? then None else Some([Record(path.value.0, sha256.value.0)] + rest.value)
  }

  function Render(m: Saved): Content {
    Text(m.filesRoot) + RenderRecords(m.files)
  }

  function Parse(c: Content): Option<Saved> {
    var filesRoot := ReadText(c);
    if filesRoot.None? then None
    else
      var files := ParseRecords(filesRoot.value.1);
      if files.None? then None else Some(Saved(filesRoot.value.0, files.value))
  }

  lemma {:induction false} RecordsRead(records: seq<Record>)
    ensures ParseRecords(RenderRecords(records)) == Some(records)
  {
    if records != [] {
      var r, more := records[0], RenderRecords(records[1..]);
      RecordsRead(records[1..]);
      TextRead(r.path, Text(r.sha256) + more);
      TextRead(r.sha256, more);
      assert records == [r] + records[1..];
    }
  }

  /** So there are faithful configurations, for every workspace, snapshot area and digest. */
  lemma FaithfulConfig(workspace: Path, root: Path, hash: Content -> string)
    ensures Faithful(Config(workspace, root, hash, Render, Parse))
  {
    var cfg := Config(workspace, root, hash, Render, Parse);
    forall s: Saved
      ensures cfg.parse(cfg.render(s)) == Some(s)
    {
      RecordsRead(s.files);
      TextRead(s.filesRoot, RenderRecords(s.files));
    }
  }

  // ----- a damaged workspace -----

  /** Workspace `w`, snapshots in `s`, and contents as their own digests; manifest files in any faithful format. */
  ghost predicate Plain(cfg: Config) {
    cfg.workspace == "w" && cfg.root == "s" && (forall c :: cfg.hash(c) == c) && Faithful(cfg)
  }

  const SavedT := Saved("s/t/files", [Record("a", "1"), Record("b/c", "1")])

  function SavedU(file: bool): Saved {
    Saved("s/u/files", if file then [Record("b", "2")] else [])
  }

  /**
    Task `t` started with files `a` and `b/c`; a command has removed them since. It has made a directory `a`
    if `dir`, and a file `b` if `file`; after that task `u` started.
   */
  function Damaged(cfg: Config, dir: bool, file: bool): FileSystem {
    FileSystem(
      map["s/t/files/a" := "1", "s/t/files/b/c" := "1", "s/t/manifest.json" := cfg.render(SavedT),
          "s/u/manifest.json" := cfg.render(SavedU(file))]
      + (if file then map["w/b" := "2", "s/u/files/b" := "2"] else map[]),
      {"s", "s/t", "s/t/files", "s/t/files/b", "s/u", "s/u/files", "w"} + (if dir then {"w/a"} else {}))
  }

  function DamageDiff(file: bool): Diff {
    Diff(if file then ["b"] else [], ["a", "b/c"], [])
  }

  function DamageLog(file: bool): seq<AuditEvent> {
    [TaskStart("t"), RanCommand("t", if file then ["a", "b", "b/c"] else ["a", "b/c"]), TaskStart("u")]
  }

  const BeforeT: Manifest := map["a" := "1", "b/c" := "1"]

  function Now(file: bool): Manifest {
    if file then map["b" := "2"] else map[]
  }

  /** The ancestors of a path are its prefixes before the listed slashes. */
  lemma SlashAt(p: Path, at: seq<nat>)
    requires forall i :: 0 <= i < |p| ==> (p[i] == '/' <==> i in at)
    ensures Ancestors(p) == set i | i in at && i < |p| :: p[..i]
  {
  }

  lemma DamageAncestors()
    ensures Ancestors("s") == Ancestors("w") == {}
    ensures Ancestors("s/t") == Ancestors("s/u") == {"s"}
    ensures Ancestors("s/t/files") == Ancestors("s/t/manifest.json") == {"s", "s/t"}
    ensures Ancestors("s/u/files") == Ancestors("s/u/manifest.json") == {"s", "s/u"}
    ensures Ancestors("s/t/files/a") == Ancestors("s/t/files/b") == {"s", "s/t", "s/t/files"}
    ensures Ancestors("s/u/files/b") == {"s", "s/u", "s/u/files"}
    ensures Ancestors("s/t/files/b/c") == {"s", "s/t", "s/t/files", "s/t/files/b"}
    ensures Ancestors("w/a") == Ancestors("w/b") == {"w"}
    ensures Ancestors("w/b/c") == {"w", "w/b"}
  {
    SlashesOne();
    SlashesFiles();
    SlashesManifests();
    SlashesCopies();
    SlashesDeep();
  }

  lemma SlashesOne()
    ensures Ancestors("s") == Ancestors("w") == {}
    ensures Ancestors("s/t") == Ancestors("s/u") == {"s"}
    ensures Ancestors("w/a") == Ancestors("w/b") == {"w"}
    ensures Ancestors("w/b/c") == {"w", "w/b"}
  {
    SlashAt("s/t", [1]);
    SlashAt("s/u", [1]);
    SlashAt("w/a", [1]);
    SlashAt("w/b", [1]);
    SlashAt("w/b/c", [1, 3]);
    assert "s/t"[..1] == "s/u"[..1] == "s" && "w/a"[..1] == "w/b"[..1] == "w";
    assert "w/b/c"[..1] == "w" && "w/b/c"[..3] == "w/b";
  }

  lemma SlashesFiles()
    ensures Ancestors("s/t/files") == {"s", "s/t"} && Ancestors("s/u/files") == {"s", "s/u"}
  {
    SlashAt("s/t/files", [1, 3]);
    SlashAt("s/u/files", [1, 3]);
    assert "s/t/files"[..1] == "s" && "s/t/files"[..3] == "s/t";
    assert "s/u/files"[..1] == "s" && "s/u/files"[..3] == "s/u";
  }

  lemma SlashesManifests()
    ensures Ancestors("s/t/manifest.json") == {"s", "s/t"} && Ancestors("s/u/manifest.json") == {"s", "s/u"}
  {
    SlashAt("s/t/manifest.json", [1, 3]);
    SlashAt("s/u/manifest.json", [1, 3]);
    assert "s/t/manifest.json"[..1] == "s" && "s/t/manifest.json"[..3] == "s/t";
    assert "s/u/manifest.json"[..1] == "s" && "s/u/manifest.json"[..3] == "s/u";
  }

  lemma SlashesCopies()
    ensures Ancestors("s/t/files/a") == Ancestors("s/t/files/b") == {"s", "s/t", "s/t/files"}
  {
    SlashAt("s/t/files/a", [1, 3, 9]);
    SlashAt("s/t/files/b", [1, 3, 9]);
    assert "s/t/files/a"[..1] == "s" && "s/t/files/a"[..3] == "s/t" && "s/t/files/a"[..9] == "s/t/files";
    assert "s/t/files/b"[..1] == "s" && "s/t/files/b"[..3] == "s/t" && "s/t/files/b"[..9] == "s/t/files";
  }

  lemma SlashesDeep()
    ensures Ancestors("s/u/files/b") == {"s", "s/u", "s/u/files"}
    ensures Ancestors("s/t/files/b/c") == {"s", "s/t", "s/t/files", "s/t/files/b"}
  {
    SlashAt("s/u/files/b", [1, 3, 9]);
    SlashAt("s/t/files/b/c", [1, 3, 9, 11]);
    assert "s/u/files/b"[..1] == "s" && "s/u/files/b"[..3] == "s/u" && "s/u/files/b"[..9] == "s/u/files";
    assert "s/t/files/b/c"[..1] == "s" && "s/t/files/b/c"[..3] == "s/t" && "s/t/files/b/c"[..9] == "s/t/files";
    assert "s/t/files/b/c"[..11] == "s/t/files/b";
  }

  const CommonFiles: set<Path> := {"s/t/files/a", "s/t/files/b/c", "s/t/manifest.json", "s/u/manifest.json"}
  const FileFiles: set<Path> := {"w/b", "s/u/files/b"}
  const CommonDirs: set<Path> := {"s", "s/t", "s/t/files", "s/t/files/b", "s/u", "s/u/files", "w"}

  lemma DamageWellFormed(cfg: Config, dir: bool, file: bool)
    requires Plain(cfg)
    ensures WellFormed(Damaged(cfg, dir, file)) && Hidden(cfg)
  {
    HiddenRoot(cfg);
    var fs := Damaged(cfg, dir, file);
    hide *;
    DamagePaths(cfg, dir, file);
    DirsNotFiles();
    AboveDirs();
    AboveFiles();
    IsWellFormed(fs);
  }

  lemma IsWellFormed(fs: FileSystem)
    requires fs.files.Keys !! fs.dirs
    requires (forall p :: p in fs.files ==> Ancestors(p) <= fs.dirs)
             && (forall d :: d in fs.dirs ==> Ancestors(d) <= fs.dirs)
    ensures WellFormed(fs)
  {
    hide Ancestors;
  }

  lemma DamagePaths(cfg: Config, dir: bool, file: bool)
    ensures var fs := Damaged(cfg, dir, file);
            && fs.files.Keys == CommonFiles + (if file then FileFiles else {})
            && fs.dirs == CommonDirs + (if dir then {"w/a"} else {})
  {
  }

  lemma DirsNotFiles()
    ensures CommonFiles + FileFiles !! CommonDirs + {"w/a"}
  {
    forall p | p in CommonFiles + FileFiles
      ensures p !in CommonDirs + {"w/a"}
    {
      if |p| > 11 {
      } else {
        assert p == "s/t/files/a" || p == "w/b" || p == "s/u/files/b";
      }
    }
  }

  lemma AboveDirs()
    ensures forall p :: p in CommonDirs || p == "w/a" ==> Ancestors(p) <= CommonDirs
  {
    DamageAncestors();
    hide Ancestors;
  }

  lemma AboveFiles()
    ensures forall p :: p in CommonFiles + FileFiles ==> Ancestors(p) <= CommonDirs
  {
    DamageAncestors();
    hide Ancestors;
  }

  lemma {:induction false} TooShort(p: string, part: string)
    requires |p| < |part|
    ensures !Includes(p, part)
  {
    if p != "" {
      TooShort(p[1..], part);
    }
  }

  lemma PlainVisible(cfg: Config, p: Path)
    requires Plain(cfg)
    requires p == "w/a" || p == "w/b" || p == "w/a/a" || p == "w/b/c"
    ensures Visible(cfg, p)
  {
    TooShort(p, ".lobster-security/snapshots");
    TooShort(p, ".lobster-security/audit");
    hide Includes;
  }

  lemma DamageNow(cfg: Config, dir: bool, file: bool)
    requires Plain(cfg)
    ensures Current(cfg, Damaged(cfg, dir, file)) == Now(file)
  {
    var fs := Damaged(cfg, dir, file);
    PlainVisible(cfg, "w/b");
    assert Join("w", "b") == "w/b";
    hide Damaged;
    forall r
      ensures r in Scan(cfg, fs) <==> file && r == "b"
      ensures r in Scan(cfg, fs) ==> Scan(cfg, fs)[r] == "2"
    {
      ScanMeaning(cfg, fs, r);
      DamageInside(cfg, dir, file, r);
      if r in Scan(cfg, fs) {
        ScanContent(cfg, fs, r);
      }
    }
    hide Scan;
  }

  lemma DamageInside(cfg: Config, dir: bool, file: bool, r: Path)
    requires cfg.workspace == "w"
    ensures Join("w", r) in Damaged(cfg, dir, file).files <==> file && r == "b"
    ensures file ==> Damaged(cfg, dir, file).files["w/b"] == "2"
  {
    assert Join("w", r)[0] == 'w';
    if Join("w", r) == "w/b" {
      assert r == Join("w", r)[2..] == "w/b"[2..] == "b";
    }
    assert Join("w", "b") == "w/b";
  }

  // ----- accounting before the rollback -----

  lemma DamageSaved(cfg: Config, dir: bool, file: bool)
    requires Plain(cfg)
    ensures var fs := Damaged(cfg, dir, file);
            && SavedOf(cfg, fs, "t") == Some(SavedT) && SavedOf(cfg, fs, "u") == Some(SavedU(file))
            && forall v :: TaskName(v) && v != "t" && v != "u" ==> SavedOf(cfg, fs, v) == None
  {
    var fs := Damaged(cfg, dir, file);
    forall v
      ensures ManifestPath(cfg, v) in fs.files <==> v == "t" || v == "u"
    {
      DamageManifests(cfg, dir, file, v);
    }
    PlainManifests(cfg);
    DamageTexts(cfg, dir, file);
    hide Damaged;
    hide ManifestPath;
  }

  lemma PlainManifests(cfg: Config)
    requires cfg.root == "s"
    ensures ManifestPath(cfg, "t") == "s/t/manifest.json" && ManifestPath(cfg, "u") == "s/u/manifest.json"
  {
    TaskRootsPlain();
    hide Join;
  }

  lemma TaskRootsPlain()
    ensures Join(Join("s", "t"), "manifest.json") == "s/t/manifest.json"
    ensures Join(Join("s", "u"), "manifest.json") == "s/u/manifest.json"
  {
    assert Join("s", "t") == "s/t" && Join("s", "u") == "s/u";
  }

  lemma DamageTexts(cfg: Config, dir: bool, file: bool)
    requires Plain(cfg)
    ensures var fs := Damaged(cfg, dir, file);
            && "s/t/manifest.json" in fs.files && cfg.parse(fs.files["s/t/manifest.json"]) == Some(SavedT)
            && "s/u/manifest.json" in fs.files && cfg.parse(fs.files["s/u/manifest.json"]) == Some(SavedU(file))
  {
  }

  lemma DamageManifests(cfg: Config, dir: bool, file: bool, v: TaskId)
    requires cfg.root == "s"
    ensures ManifestPath(cfg, v) in Damaged(cfg, dir, file).files <==> v == "t" || v == "u"
  {
    hide *;
    DamagePaths(cfg, dir, file);
    PlainManifests(cfg);
    OfManifest(cfg, v);
    ManifestFiles();
    if ManifestPath(cfg, v) in CommonFiles + FileFiles {
      LongFile(ManifestPath(cfg, v));
    }
  }

  lemma ManifestFiles()
    ensures "s/t/manifest.json" in CommonFiles && "s/u/manifest.json" in CommonFiles
  {
  }

  lemma OfManifest(cfg: Config, v: TaskId)
    requires cfg.root == "s"
    ensures var p := ManifestPath(cfg, v); |p| >= 16 && (|p| == 17 ==> v == [p[2]])
  {
    assert ManifestPath(cfg, v)[2..|v| + 2] == v;
  }

  lemma LongFile(p: Path)
    requires p in CommonFiles + FileFiles && |p| >= 16
    ensures |p| == 17 && ([p[2]] == "t" || [p[2]] == "u")
  {
  }

  lemma DamageDicts(file: bool)
    ensures AsDict(SavedT.files) == BeforeT && AsDict(SavedU(file).files) == Now(file)
  {
    assert SavedT.files[..1] == [Record("a", "1")] && [Record("a", "1")][..0] == [];
    assert [Record("b", "2")][..0] == [];
  }

  lemma DamageIsDiff(file: bool)
    ensures IsDiff(DamageDiff(file), BeforeT, Now(file))
  {
    assert "a"[0] == 'a' && "b"[0] == 'b' && |"b"| == 1 && |"b/c"| == 3;
    assert Added(BeforeT, Now(file)) == if file then {"b"} else {};
    assert Deleted(BeforeT, Now(file)) == {"a", "b/c"};
    assert Changed(BeforeT, Now(file)) == {};
    OneSorted("b");
    TwoSorted();
    NoneSorted();
    hide Sorts, Added, Deleted, Changed;
  }

  lemma NoneSorted()
    ensures Sorts([], {})
  {
  }

  lemma TwoSorted()
    ensures Sorts(["a", "b/c"], {"a", "b/c"})
  {
    var r := ["a", "b/c"];
    assert Less("a", "b/c");
    assert r[0] == "a" && r[1] == "b/c";
  }

  lemma OneSorted(x: string)
    ensures Sorts([x], {x})
  {
  }

  lemma Components()
    ensures NonNested({"a", "b/c"})
  {
    assert "b/c"[1] == '/' && "b/c"[..1][0] == 'b' && "a"[0] == 'a';
  }

  lemma DamageHonest(cfg: Config, file: bool)
    requires Plain(cfg)
    ensures Honest(cfg, BeforeT) && Honest(cfg, Now(file))
  {
    PlainVisible(cfg, "w/a");
    PlainVisible(cfg, "w/b");
    PlainVisible(cfg, "w/b/c");
    assert Join("w", "a") == "w/a" && Join("w", "b") == "w/b" && Join("w", "b/c") == "w/b/c";
    Components();
    hide Visible;
    hide Under;
    assert BeforeT.Keys == {"a", "b/c"};
  }

  lemma DamageNames(cfg: Config, file: bool)
    ensures NamedSince(cfg, DamageLog(file), "t") == (if file then {"a", "b", "b/c"} else {"a", "b/c"})
    ensures NamedSince(cfg, DamageLog(file), "u") == {}
  {
    var started, ran := TaskStart("t"), DamageLog(file)[1];
    NamedSinceLogged(cfg, [], started, "t");
    NamedSinceLogged(cfg, [started], ran, "t");
    NamedSinceLogged(cfg, [started, ran], TaskStart("u"), "t");
    NamedSinceLogged(cfg, [started, ran], TaskStart("u"), "u");
    assert [started] + [ran] == [started, ran] && [started, ran] + [TaskStart("u")] == DamageLog(file);
    assert [] + [started] == [started];
  }

  lemma DamageAccounts(cfg: Config, dir: bool, file: bool)
    requires Plain(cfg)
    ensures AllAccount(cfg, Damaged(cfg, dir, file), DamageLog(file))
  {
    hide *;
    var fs, audit := Damaged(cfg, dir, file), DamageLog(file);
    DamageSaved(cfg, dir, file);
    DamageDicts(file);
    DamageHonest(cfg, file);
    DamageNow(cfg, dir, file);
    DamageNames(cfg, file);
    DamageIsDiff(file);
    DiffPathsMeaning(DamageDiff(file), BeforeT, Now(file));
    NothingTouched(Now(file), Now(file));
    DamageListed(file);
    PlainRoots(cfg);
    forall v | TaskName(v)
      ensures Accounts(cfg, fs, audit, v)
    {
      if v == "t" {
        IsAccounted(cfg, fs, audit, v, SavedT);
      } else if v == "u" {
        IsAccounted(cfg, fs, audit, v, SavedU(file));
      } else {
        NoManifest(cfg, fs, audit, v);
      }
    }
    AreAllAccount(cfg, fs, audit);
  }

  lemma DamageListed(file: bool)
    ensures DiffPaths(DamageDiff(file)) == if file then {"a", "b", "b/c"} else {"a", "b/c"}
    ensures SavedT.filesRoot == "s/t/files" && SavedU(file).filesRoot == "s/u/files"
  {
  }

  lemma PlainRoots(cfg: Config)
    requires Plain(cfg)
    ensures cfg.workspace == "w" && FilesRoot(cfg, "t") == "s/t/files" && FilesRoot(cfg, "u") == "s/u/files"
  {
  }

  lemma IsAccounted(cfg: Config, fs: FileSystem, audit: seq<AuditEvent>, t: TaskId, saved: Saved)
    requires SavedOf(cfg, fs, t) == Some(saved) && saved.filesRoot == FilesRoot(cfg, t)
    requires Honest(cfg, AsDict(saved.files))
    requires Touched(AsDict(saved.files), Current(cfg, fs)) <= NamedSince(cfg, audit, t)
    ensures Accounts(cfg, fs, audit, t)
  {
    hide SavedOf, Honest, AsDict, Touched, Current, NamedSince, FilesRoot;
  }

  lemma NoManifest(cfg: Config, fs: FileSystem, audit: seq<AuditEvent>, t: TaskId)
    requires SavedOf(cfg, fs, t) == None
    ensures Accounts(cfg, fs, audit, t)
  {
  }

  // ----- the rollback of task `t` -----

  /** It copies `a`, into the directory if there is one; and `b/c` unless the file is in the way. */
  lemma DamageCopies(cfg: Config, dir: bool, file: bool)
    requires Plain(cfg)
    ensures var fs, d := Damaged(cfg, dir, file), DamageDiff(file);
            && Copied(cfg, "t", fs, d) == (if file then ["a"] else ["a", "b/c"]) && Restored(d) == ["a", "b/c"]
  {
    var fs, d := Damaged(cfg, dir, file), DamageDiff(file);
    DamageLandings(cfg, dir, file);
    DamagePlaces(cfg, dir, file);
    PlainRoots(cfg);
    hide Damaged, Plain, CanPlace, FilesRoot;
    assert Restored(d) == ["a", "b/c"] && ["a", "b/c"][1..] == ["b/c"] && ["b/c"][1..] == [];
    assert Done(fs, "s/t/files", "w", ["b/c"]) == if file then 0 else 1;
  }

  lemma DamageLandings(cfg: Config, dir: bool, file: bool)
    requires Plain(cfg)
    ensures var fs := Damaged(cfg, dir, file);
            && CopyAt(cfg, "t", fs, "a") == Landing(fs, "s/t/files", "w", "a") == (if dir then "w/a/a" else "w/a")
            && CopyAt(cfg, "t", fs, "b/c") == Landing(fs, "s/t/files", "w", "b/c") == "w/b/c"
            && (Join("w", "a") in fs.dirs <==> dir) && Join("w", "b/c") !in fs.dirs
  {
    var fs := Damaged(cfg, dir, file);
    hide *;
    DamagePaths(cfg, dir, file);
    PlainRoots(cfg);
    DamageJoins();
    LandingsFree();
    CopyAtIs(cfg, "t", fs, "a");
    CopyAtIs(cfg, "t", fs, "b/c");
    LandingIs(fs, "a");
    LandingIs(fs, "b/c");
  }

  lemma LandingIs(fs: FileSystem, r: Path)
    ensures Join("w", r) !in fs.dirs ==> Landing(fs, "s/t/files", "w", r) == Join("w", r)
    ensures r == "a" && Join("w", "a") in fs.dirs ==> Landing(fs, "s/t/files", "w", r) == "w/a/a"
  {
    assert Join("s/t/files", "a") == "s/t/files/a" && Join(Join("w", "a"), "a") == "w/a/a";
    assert Base("s/t/files/a") == "a" by {
      assert "s/t/files/a"[..10] == "s/t/files/";
    }
    hide Join, Base;
  }

  lemma DamagePlaces(cfg: Config, dir: bool, file: bool)
    requires Plain(cfg)
    ensures var fs := Damaged(cfg, dir, file);
            CanPlace(fs, "s/t/files", "w", "a") && (CanPlace(fs, "s/t/files", "w", "b/c") <==> !file)
  {
    hide *;
    var fs := Damaged(cfg, dir, file);
    DamagePaths(cfg, dir, file);
    DamageLandings(cfg, dir, file);
    SlashesOne();
    DamageJoins();
    LandingsFree();
    CanPlaceIs(fs, "a", {"w"});
    CanPlaceIs(fs, "b/c", {"w", "w/b"});
  }

  lemma DamageJoins()
    ensures Join("w", "a") == "w/a" && Join("w", "b/c") == "w/b/c"
    ensures Join("s/t/files", "a") == "s/t/files/a" && Join("s/t/files", "b/c") == "s/t/files/b/c"
  {
  }

  lemma CanPlaceIs(fs: FileSystem, r: Path, above: set<Path>)
    requires Ancestors(Join("w", r)) == above
    ensures CanPlace(fs, "s/t/files", "w", r) <==>
              && Join("s/t/files", r) in fs.files && above !! fs.files.Keys
              && Landing(fs, "s/t/files", "w", r) !in fs.dirs
              && Landing(fs, "s/t/files", "w", r) != Join("s/t/files", r)
  {
    hide Ancestors, Join, Landing;
    forall a | a in above && a in fs.files.Keys
      ensures a in above * fs.files.Keys
    {
    }
  }

  lemma LandingsFree()
    ensures CommonFiles + FileFiles !! {"w", "w/a", "w/a/a", "w/b/c"}
    ensures CommonDirs !! {"w/a", "w/a/a", "w/b/c"} && "w/a" !in {"w/a/a", "w/b/c"}
    ensures "s/t/files/a" in CommonFiles && "s/t/files/b/c" in CommonFiles
            && "w/b" in FileFiles && "w/b" !in CommonFiles
    ensures "w/a" != "s/t/files/a" && "w/a/a" != "s/t/files/a" && "w/b/c" != "s/t/files/b/c"
  {
  }

  /** The tree, the manifests and the log are such as the wrapper leaves them, and all is accounted for. */
  ghost predicate Sound(cfg: Config, fs: FileSystem, audit: seq<AuditEvent>, d: Diff) {
    && WellFormed(fs) && Hidden(cfg) && Faithful(cfg) && AllAccount(cfg, fs, audit)
    && SavedOf(cfg, fs, "t").Some? && SavedOf(cfg, fs, "t").value.filesRoot == FilesRoot(cfg, "t")
    && IsDiff(d, AsDict(SavedOf(cfg, fs, "t").value.files), Current(cfg, fs))
  }

  /**
    All that can come of rolling `t` back. It raises if the file is in the way; it loses the account of `t`
    if the directory is; and that of `u`, which is younger than the damage, in both cases.
   */
  lemma DamageOutcome(cfg: Config, dir: bool, file: bool)
    requires Plain(cfg)
    ensures var fs, audit, d := Damaged(cfg, dir, file), DamageLog(file), DamageDiff(file);
            var e := RollbackEffect(cfg, FilesRoot(cfg, "t"), fs, d);
            var audit1 := if e.ok then audit + [RanRollback("t", false, d)] else audit;
            && Sound(cfg, fs, audit, d) && (e.ok <==> !file)
            && (Accounts(cfg, e.fs, audit1, "t") <==> !dir)
            && (Accounts(cfg, e.fs, audit1, "u") <==> !dir && !file)
  {
    hide *;
    var fs, audit, d := Damaged(cfg, dir, file), DamageLog(file), DamageDiff(file);
    DamageSound(cfg, dir, file);
    DamageRolling(cfg, dir, file);
    DamageCopies(cfg, dir, file);
    RollbackTree(cfg, "t", fs, BeforeT, d);
    OneAccount(cfg, fs, audit, "t");
    OneAccount(cfg, fs, audit, "u");
    OwnRollbackIff(cfg, fs, audit, "t", BeforeT, d);
    RollbackAccountsIff(cfg, fs, audit, "t", BeforeT, d, "u");
    DamageStrays(cfg, dir, file);
    DamageSpared(cfg, dir, file);
  }

  lemma DamageSound(cfg: Config, dir: bool, file: bool)
    requires Plain(cfg)
    ensures var fs, audit, d := Damaged(cfg, dir, file), DamageLog(file), DamageDiff(file);
            && Sound(cfg, fs, audit, d) && AllAccount(cfg, fs, audit)
            && SavedOf(cfg, fs, "t").Some? && BeforeT == AsDict(SavedOf(cfg, fs, "t").value.files)
            && TaskName("t") && TaskName("u")
  {
    hide *;
    DamageWellFormed(cfg, dir, file);
    DamageSaved(cfg, dir, file);
    DamageDicts(file);
    DamageNow(cfg, dir, file);
    DamageIsDiff(file);
    DamageAccounts(cfg, dir, file);
    DamageListed(file);
    PlainRoots(cfg);
    TaskNames();
    PlainFaithful(cfg);
    IsSound(cfg, Damaged(cfg, dir, file), DamageLog(file), DamageDiff(file));
  }

  lemma TaskNames()
    ensures TaskName("t") && TaskName("u")
  {
  }

  lemma PlainFaithful(cfg: Config)
    requires Plain(cfg)
    ensures Faithful(cfg)
  {
  }

  lemma IsSound(cfg: Config, fs: FileSystem, audit: seq<AuditEvent>, d: Diff)
    requires WellFormed(fs) && Hidden(cfg) && Faithful(cfg) && AllAccount(cfg, fs, audit)
    requires SavedOf(cfg, fs, "t").Some? && SavedOf(cfg, fs, "t").value.filesRoot == FilesRoot(cfg, "t")
    requires IsDiff(d, AsDict(SavedOf(cfg, fs, "t").value.files), Current(cfg, fs))
    ensures Sound(cfg, fs, audit, d)
  {
    hide WellFormed, Hidden, Faithful, AllAccount, SavedOf, FilesRoot, AsDict, IsDiff, Current;
  }

  lemma DamageRolling(cfg: Config, dir: bool, file: bool)
    requires Plain(cfg)
    ensures Rolling(cfg, Damaged(cfg, dir, file), BeforeT, DamageDiff(file))
  {
    DamageWellFormed(cfg, dir, file);
    DamageNow(cfg, dir, file);
    DamageIsDiff(file);
    DamageHonest(cfg, file);
    hide WellFormed, Hidden, IsDiff, Current, Damaged, DamageDiff, Now, Plain, Honest;
  }

  lemma DamageStrays(cfg: Config, dir: bool, file: bool)
    requires Plain(cfg)
    ensures var fs, d := Damaged(cfg, dir, file), DamageDiff(file);
            && (StraysNamed(cfg, fs, DamageLog(file), "t", d) <==> !dir)
            && (NoStray(cfg, "t", fs, d) <==> !dir)
  {
    hide *;
    var fs, d := Damaged(cfg, dir, file), DamageDiff(file);
    DamagePaths(cfg, dir, file);
    DamageLandings(cfg, dir, file);
    DamageCopies(cfg, dir, file);
    DamageNames(cfg, file);
    LandingsFree();
    PlainRoots(cfg);
    PlainVisible(cfg, "w/a/a");
    RelsApart();
    StrayIs(cfg, fs, d, "a");
    StrayIs(cfg, fs, d, "b/c");
    DamageDeleted(file);
    AreStrays(cfg, fs, DamageLog(file), d, dir);
  }

  lemma RelsApart()
    ensures Rel("w", "w/a") == "a" && Rel("w", "w/a/a") == "a/a" && Rel("w", "w/b/c") == "b/c"
    ensures "a/a" !in {"a", "b", "b/c"} && "a" !in {"b"}
  {
  }

  lemma DamageDeleted(file: bool)
    ensures DamageDiff(file).deleted == ["a", "b/c"]
  {
  }

  lemma StrayIs(cfg: Config, fs: FileSystem, d: Diff, r: Path)
    ensures Strays(cfg, "t", fs, d, r) <==>
              && r in d.deleted && Join(cfg.workspace, r) in fs.dirs
              && CopyAt(cfg, "t", fs, r) !in fs.files.Keys && Visible(cfg, CopyAt(cfg, "t", fs, r))
  {
    hide Join, CopyAt, Visible;
  }

  lemma AreStrays(cfg: Config, fs: FileSystem, audit: seq<AuditEvent>, d: Diff, dir: bool)
    requires d.deleted == ["a", "b/c"]
    requires Copied(cfg, "t", fs, d) == ["a"] || Copied(cfg, "t", fs, d) == ["a", "b/c"]
    requires (Strays(cfg, "t", fs, d, "a") <==> dir) && !Strays(cfg, "t", fs, d, "b/c")
    requires dir ==> Rel(cfg.workspace, CopyAt(cfg, "t", fs, "a")) !in NamedSince(cfg, audit, "t")
    ensures (StraysNamed(cfg, fs, audit, "t", d) <==> !dir) && (NoStray(cfg, "t", fs, d) <==> !dir)
  {
    hide Copied, Strays, Rel, CopyAt, NamedSince;
    assert Copied(cfg, "t", fs, d)[0] == "a" && d.deleted[0] == "a";
  }

  lemma DamageSpared(cfg: Config, dir: bool, file: bool)
    requires Plain(cfg)
    ensures Spared(cfg, Damaged(cfg, dir, file), DamageLog(file), "t", DamageDiff(file), "u") <==> !dir && !file
  {
    hide *;
    var fs, audit, d := Damaged(cfg, dir, file), DamageLog(file), DamageDiff(file);
    DamageLandings(cfg, dir, file);
    DamageCopies(cfg, dir, file);
    DamageNames(cfg, file);
    DamageSaved(cfg, dir, file);
    DamageDicts(file);
    DamageListed(file);
    PlainRoots(cfg);
    PlainVisible(cfg, if dir then "w/a/a" else "w/a");
    RelsApart();
    NowKeys(file);
    IsSpared(cfg, fs, audit, d, file);
  }

  lemma NowKeys(file: bool)
    ensures Now(file).Keys <= {"b"}
  {
  }

  lemma IsSpared(cfg: Config, fs: FileSystem, audit: seq<AuditEvent>, d: Diff, file: bool)
    requires Copied(cfg, "t", fs, d) == (if file then ["a"] else ["a", "b/c"]) && Restored(d) == ["a", "b/c"]
    requires Visible(cfg, CopyAt(cfg, "t", fs, "a")) && NamedSince(cfg, audit, "u") == {}
    requires SavedOf(cfg, fs, "u").Some?
    requires Rel(cfg.workspace, CopyAt(cfg, "t", fs, "a")) !in AsDict(SavedOf(cfg, fs, "u").value.files)
    requires Rel(cfg.workspace, CopyAt(cfg, "t", fs, "b/c")) in DiffPaths(d)
    ensures Spared(cfg, fs, audit, "t", d, "u") <==>
              !file && Rel(cfg.workspace, CopyAt(cfg, "t", fs, "a")) in DiffPaths(d)
  {
    hide Copied, Rel, CopyAt, NamedSince, SavedOf, AsDict, Visible, Restored, Join, FilesRoot, DiffPaths;
    assert Copied(cfg, "t", fs, d)[0] == "a";
  }

  /**
    A rollback that does list too little: the task's file `a` has become a directory, the rollback reports
    success, and leaves a new file that its diff does not list. The task itself is no longer accounted for.
   */
  lemma UnlistedCopy(cfg: Config)
    requires Plain(cfg)
    ensures var fs, audit, d := Damaged(cfg, true, false), DamageLog(false), DamageDiff(false);
            var e := RollbackEffect(cfg, FilesRoot(cfg, "t"), fs, d);
            && Sound(cfg, fs, audit, d) && e.ok
            && !(Touched(Current(cfg, fs), Current(cfg, e.fs)) <= DiffPaths(d))
            && !Accounts(cfg, e.fs, audit + [RanRollback("t", false, d)], "t")
  {
    hide *;
    DamageOutcome(cfg, true, false);
    DamageRolling(cfg, true, false);
    DamageStrays(cfg, true, false);
    RollbackTouchesIff(cfg, "t", Damaged(cfg, true, false), BeforeT, DamageDiff(false));
  }

  /**
    A rollback that raises half-way and names nothing: it has brought `a` back, and task `u` is no longer
    accounted for. Task `t` still is; but not when the first copy went into a directory.
   */
  lemma RaisedUnnamed(cfg: Config)
    requires Plain(cfg)
    ensures var fs, audit, d := Damaged(cfg, false, true), DamageLog(true), DamageDiff(true);
            var e := RollbackEffect(cfg, FilesRoot(cfg, "t"), fs, d);
            Sound(cfg, fs, audit, d) && !e.ok && Accounts(cfg, e.fs, audit, "t") && !Accounts(cfg, e.fs, audit, "u")
    ensures var fs, audit, d := Damaged(cfg, true, true), DamageLog(true), DamageDiff(true);
            var e := RollbackEffect(cfg, FilesRoot(cfg, "t"), fs, d);
            Sound(cfg, fs, audit, d) && !e.ok && !Accounts(cfg, e.fs, audit, "t")
  {
    hide *;
    DamageOutcome(cfg, false, true);
    DamageOutcome(cfg, true, true);
  }

  /** Such configurations exist. */
  lemma PlainConfig()
    ensures Plain(Config("w", "s", (c: Content) => c, Render, Parse))
  {
    FaithfulConfig("w", "s", (c: Content) => c);
    hide Faithful;
  }
}
