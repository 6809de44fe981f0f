/**
  A file system of regular files and directories, with the operations that the snapshot manager and
  the wrapper perform on it: `mkdir(parents=True)`, `shutil.copy2`, `unlink`, `write_text`.
 */
module Files {

  type Path = string
  type Content = string

  /** `dir` is a proper ancestor directory of `p`. */
  predicate Under(dir: Path, p: Path) {
    |dir| < |p| && p[..|dir|] == dir && p[|dir|] == '/'
  }

  function Join(dir: Path, rel: Path): (p: Path)
    ensures Under(dir, p) && Rel(dir, p) == rel
  {
    dir + "/" + rel
  }

  /** `p.relative_to(dir)`, for a path below `dir`. */
  function Rel(dir: Path, p: Path): (rel: Path)
    ensures Under(dir, p) ==> dir + "/" + rel == p
  {
    if |p| > |dir| then p[|dir| + 1..] else ""
  }

  function Ancestors(p: Path): (r: set<Path>)
    ensures forall a :: a in r <==> Under(a, p)
  {
    var r := set i | 0 <= i < |p| && p[i] == '/' :: p[..i];
    assert forall a :: Under(a, p) ==> a == p[..|a|];
    r
  }

  /** The final component of a path. */
  function Base(p: Path): string {
    if p == "" || p[|p| - 1] == '/' then "" else Base(p[..|p| - 1]) + [p[|p| - 1]]
  }

  /** It is what stands behind the last slash. */
  lemma {:induction false} BaseMeaning(dir: Path, name: string)
    requires '/' !in name
    ensures Base(Join(dir, name)) == name && Base(name) == name
  {
    hide *;
    if name == "" {
      BaseSlash(Join(dir, name));
      JoinEnds(dir, name);
      BaseSlash("");
    } else {
      var n := |name| - 1;
      assert name == name[..n] + [name[n]];
      BaseMeaning(dir, name[..n]);
      JoinMore(dir, name[..n], name[n]);
      BaseMore(Join(dir, name[..n]), name[n]);
      BaseMore(name[..n], name[n]);
    }
  }

  lemma BaseSlash(p: Path)
    ensures p == "" || p[|p| - 1] == '/' ==> Base(p) == ""
  {
  }

  lemma BaseMore(p: Path, c: char)
    ensures c != '/' ==> Base(p + [c]) == Base(p) + [c]
  {
    assert (p + [c])[..|p|] == p;
  }

  lemma JoinEnds(dir: Path, name: string)
    ensures name == "" ==> Join(dir, name) != "" && Join(dir, name)[|Join(dir, name)| - 1] == '/'
  {
  }

  lemma JoinMore(dir: Path, name: string, c: char)
    ensures Join(dir, name + [c]) == Join(dir, name) + [c]
  {
    assert dir + "/" + (name + [c]) == dir + "/" + name + [c];
  }

  lemma UnderTransitive(a: Path, b: Path, c: Path)
    requires Under(a, b) && Under(b, c)
    ensures Under(a, c)
  {
    assert c[..|b|][..|a|] == c[..|a|];
    assert c[..|b|][|a|] == c[|a|];
  }

  /** Two ancestors of one path are nested in each other. */
  lemma UnderLinear(a: Path, b: Path, c: Path)
    requires Under(a, c) && (Under(b, c) || b == c)
    ensures a == b || Under(a, b) || Under(b, a)
  {
    if |a| < |b| {
      assert b[..|a|] == c[..|b|][..|a|] == a;
      assert b[|a|] == c[..|b|][|a|];
    } else if |b| < |a| {
      assert a[..|b|] == c[..|a|][..|b|] == b;
      assert a[|b|] == c[..|a|][|b|];
    }
  }

  predicate AtOrUnder(dir: Path, p: Path) {
    p == dir || Under(dir, p)
  }

  datatype FileSystem = FileSystem(files: map<Path, Content>, dirs: set<Path>)

  /** No path is both file and directory, and whatever exists lies in existing directories. */
  ghost predicate WellFormed(fs: FileSystem) {
    && fs.files.Keys !! fs.dirs
    && (forall p :: p in fs.files ==> Ancestors(p) <= fs.dirs)
    && (forall d :: d in fs.dirs ==> Ancestors(d) <= fs.dirs)
  }

  /** The state an operation leaves behind, also when it raises. */
  datatype Effect = Effect(fs: FileSystem, ok: bool)

  /** `path.parent.mkdir(parents=True, exist_ok=True)`: raises when an ancestor is a file. */
  function MakeParents(fs: FileSystem, p: Path): Effect {
    if Ancestors(p) * fs.files.Keys != {} then Effect(fs, false)
    else Effect(fs.(dirs := fs.dirs + Ancestors(p)), true)
  }

  /** `path.mkdir(parents=True, exist_ok=True)`: raises when the path or an ancestor is a file. */
  function MakeDir(fs: FileSystem, p: Path): Effect {
    MakeParents(fs, Join(p, ""))
  }

  lemma MakeDirMeaning(fs: FileSystem, p: Path)
    ensures Ancestors(Join(p, "")) == Ancestors(p) + {p}
  {
    forall a
      ensures Under(a, Join(p, "")) <==> a == p || Under(a, p)
    {
      if |a| < |p| {
        assert Join(p, "")[..|a|] == p[..|a|];
      }
    }
  }

  /** Where `shutil.copy2(source, target)` writes: into `target` when that is a directory. */
  function CopyTarget(fs: FileSystem, source: Path, target: Path): Path {
    if target in fs.dirs then Join(target, Base(source)) else target
  }

  /** `shutil.copy2(source, target)`. */
  function Copy(fs: FileSystem, source: Path, target: Path): Effect {
    var actual := CopyTarget(fs, source, target);
    if source !in fs.files || actual == source || actual in fs.dirs || !(Ancestors(actual) <= fs.dirs)
    then Effect(fs, false)
    else Effect(fs.(files := fs.files[actual := fs.files[source]]), true)
  }

  /** `if target.exists(): target.unlink()`. */
  function Unlink(fs: FileSystem, p: Path): Effect {
    if p in fs.dirs then Effect(fs, false) else Effect(fs.(files := fs.files - {p}), true)
  }

  /** `path.write_text(content)`. */
  function Write(fs: FileSystem, p: Path, content: Content): Effect {
    if p in fs.dirs || !(Ancestors(p) <= fs.dirs) then Effect(fs, false)
    else Effect(fs.(files := fs.files[p := content]), true)
  }

  /** The same after making the parents. */
  function WriteText(fs: FileSystem, p: Path, content: Content): Effect {
    var made := MakeParents(fs, p);
    if made.ok then Write(made.fs, p, content) else made
  }

  /** Making the parents and then copying, as create and rollback both do. */
  function Place(fs: FileSystem, source: Path, target: Path): Effect {
    var made := MakeParents(fs, target);
    if made.ok then Copy(made.fs, source, target) else made
  }

  /** Nothing stands in the way of a file at `p`. */
  predicate Free(fs: FileSystem, p: Path) {
    p !in fs.dirs && Ancestors(p) * fs.files.Keys == {}
  }

  lemma MakeParentsWellFormed(fs: FileSystem, p: Path)
    requires WellFormed(fs)
    ensures WellFormed(MakeParents(fs, p).fs)
  {
    forall d, a | d in Ancestors(p) && a in Ancestors(d)
      ensures a in Ancestors(p)
    {
      UnderTransitive(a, d, p);
    }
    var made := MakeParents(fs, p);
    if made.ok {
      assert forall a :: a in Ancestors(p) && a in fs.files.Keys ==> a in Ancestors(p) * fs.files.Keys;
    }
  }

  /** A write succeeds exactly on a free path, makes the directories above it, and leaves exactly the content there. */
  lemma WriteMeaning(fs: FileSystem, p: Path, content: Content)
    ensures var e := WriteText(fs, p, content);
            && (e.ok <==> Free(fs, p))
            && (e.ok ==> e.fs.files == fs.files[p := content] && e.fs.dirs == fs.dirs + Ancestors(p))
            && (!e.ok ==> e.fs.files == fs.files)
  {
  }

  /** Making a directory succeeds exactly when no file stands at its path or above. */
  lemma MakeDirIff(fs: FileSystem, p: Path)
    ensures var e := MakeDir(fs, p);
            && (e.ok <==> (Ancestors(p) + {p}) * fs.files.Keys == {})
            && e.fs == if e.ok then fs.(dirs := fs.dirs + Ancestors(p) + {p}) else fs
  {
    MakeDirMeaning(fs, p);
    hide Ancestors;
    assert fs.dirs + (Ancestors(p) + {p}) == fs.dirs + Ancestors(p) + {p};
  }

  /** Placing keeps the tree well formed, only adds directories, and keeps every existing path a file. */
  lemma PlaceKeeps(fs: FileSystem, source: Path, target: Path)
    requires WellFormed(fs)
    ensures var e := Place(fs, source, target);
            WellFormed(e.fs) && fs.dirs <= e.fs.dirs && fs.files.Keys <= e.fs.files.Keys
    ensures Place(fs, source, target).ok ==> Ancestors(target) * fs.files.Keys == {}
  {
    MakeParentsWellFormed(fs, target);
  }

  /** On a free target, placing puts exactly the source's content there. */
  lemma PlaceFree(fs: FileSystem, source: Path, target: Path)
    requires WellFormed(fs) && Free(fs, target) && source in fs.files && source != target
    ensures Place(fs, source, target)
         == Effect(FileSystem(fs.files[target := fs.files[source]], fs.dirs + Ancestors(target)), true)
  {
  }

  /** Placing writes no file outside the target, or below it when it is a directory. */
  lemma PlaceFrame(fs: FileSystem, source: Path, target: Path, p: Path)
    requires !AtOrUnder(target, p)
    ensures var e := Place(fs, source, target);
            (p in e.fs.files <==> p in fs.files) && (p in fs.files ==> e.fs.files[p] == fs.files[p])
  {
  }

  // ----- placing many files -----

  /** The file at `from/rel` goes to `to/rel`, for one relative path after the other. */
  function PlaceAll(fs: FileSystem, from: Path, to: Path, rels: seq<Path>): Effect
    decreases |rels|
  {
    if rels == [] then Effect(fs, true)
    else
      var e := Place(fs, Join(from, rels[0]), Join(to, rels[0]));
      if e.ok then PlaceAll(e.fs, from, to, rels[1..]) else e
  }

  lemma {:induction false} PlaceAllSnoc(fs: FileSystem, from: Path, to: Path, rels: seq<Path>, r: Path)
    ensures var e := PlaceAll(fs, from, to, rels);
            PlaceAll(fs, from, to, rels + [r]) == (if e.ok then Place(e.fs, Join(from, r), Join(to, r)) else e)
    decreases |rels|
  {
    hide Place;
    if rels == [] {
      assert rels + [r] == [r];
      assert [r][1..] == [];
    } else {
      assert (rels + [r])[1..] == rels[1..] + [r];
      var e := Place(fs, Join(from, rels[0]), Join(to, rels[0]));
      if e.ok {
        PlaceAllSnoc(e.fs, from, to, rels[1..], r);
      }
    }
  }

  predicate NonNested(rels: set<Path>) {
    forall a, b :: a in rels && b in rels ==> !Under(a, b)
  }

  lemma JoinUnder(dir: Path, a: Path, b: Path)
    ensures Under(Join(dir, a), Join(dir, b)) <==> Under(a, b)
    ensures Join(dir, a) == Join(dir, b) <==> a == b
  {
    var p, q := Join(dir, a), Join(dir, b);
    if |a| < |b| {
      assert q[|p|] == b[|a|];
      assert q[..|p|] == dir + "/" + b[..|a|];
      if q[..|p|] == p {
        assert b[..|a|] == q[..|p|][|dir| + 1..];
      }
    }
  }

  function Targets(to: Path, rels: seq<Path>): set<Path> {
    set r | r in rels :: Join(to, r)
  }

  /** The files under `to` that placing `rels` from `from` produces. */
  function Placed(files: map<Path, Content>, from: Path, to: Path, rels: seq<Path>): map<Path, Content>
    requires forall r :: r in rels ==> Join(from, r) in files
  {
    map p | p in Targets(to, rels) :: files[Join(from, Rel(to, p))]
  }

  /** All sources exist, all targets are free, none is a source, and no target lies below another. */
  ghost predicate Placeable(fs: FileSystem, from: Path, to: Path, rels: seq<Path>) {
    && (forall r :: r in rels ==> Join(from, r) in fs.files && Free(fs, Join(to, r)))
    && (forall r, q :: r in rels && q in rels ==> Join(from, r) != Join(to, q))
    && (forall r, q :: r in rels && q in rels ==> !Under(r, q))
  }

  /** Then every placement succeeds, and the files are the old ones overlaid with the placed ones. */
  lemma {:induction false} PlaceAllFree(fs: FileSystem, from: Path, to: Path, rels: seq<Path>)
    requires WellFormed(fs) && Placeable(fs, from, to, rels)
    ensures var e := PlaceAll(fs, from, to, rels);
            e.ok && e.fs == FileSystem(fs.files + Placed(fs.files, from, to, rels), fs.dirs + Parents(to, rels))
    decreases |rels|
  {
    hide *;
    if rels == [] {
      NothingPlaced(fs, from, to);
    } else {
      var r := rels[0];
      FirstPlaced(fs, from, to, rels);
      var fs1 := Place(fs, Join(from, r), Join(to, r)).fs;
      StillPlaceable(fs, fs1, from, to, rels);
      PlaceAllFree(fs1, from, to, rels[1..]);
      PlacedStep(fs.files, from, to, rels);
      ParentsStep(to, rels);
      assert fs.dirs + Parents(to, rels) == fs1.dirs + Parents(to, rels[1..]);
      PlaceAllStep(fs, from, to, rels);
    }
  }

  lemma PlaceAllStep(fs: FileSystem, from: Path, to: Path, rels: seq<Path>)
    requires rels != [] && Place(fs, Join(from, rels[0]), Join(to, rels[0])).ok
    ensures PlaceAll(fs, from, to, rels)
            == PlaceAll(Place(fs, Join(from, rels[0]), Join(to, rels[0])).fs, from, to, rels[1..])
  {
    hide Place;
    hide Join;
  }

  lemma ParentsStep(to: Path, rels: seq<Path>)
    requires rels != []
    ensures Parents(to, rels) == Ancestors(Join(to, rels[0])) + Parents(to, rels[1..])
  {
    hide Ancestors;
    hide Join;
    assert forall r :: r in rels <==> r == rels[0] || r in rels[1..];
  }

  function Parents(to: Path, rels: seq<Path>): set<Path> {
    set r, d | r in rels && d in Ancestors(Join(to, r)) :: d
  }

  lemma NothingPlaced(fs: FileSystem, from: Path, to: Path)
    ensures Placed(fs.files, from, to, []) == map[] && Parents(to, []) == {}
    ensures PlaceAll(fs, from, to, []) == Effect(fs, true)
  {
  }

  lemma FirstPlaced(fs: FileSystem, from: Path, to: Path, rels: seq<Path>)
    requires WellFormed(fs) && rels != [] && Placeable(fs, from, to, rels)
    ensures var e := Place(fs, Join(from, rels[0]), Join(to, rels[0]));
            e.ok && WellFormed(e.fs) && Join(from, rels[0]) in fs.files
            && e.fs.files == fs.files[Join(to, rels[0]) := fs.files[Join(from, rels[0])]]
            && e.fs.dirs == fs.dirs + Ancestors(Join(to, rels[0]))
    ensures forall r :: r in rels ==> Join(from, r) in fs.files
    ensures forall r, q :: r in rels && q in rels ==> Join(from, r) != Join(to, q)
  {
    PlaceFree(fs, Join(from, rels[0]), Join(to, rels[0]));
    PlaceKeeps(fs, Join(from, rels[0]), Join(to, rels[0]));
  }

  lemma StillPlaceable(fs: FileSystem, fs1: FileSystem, from: Path, to: Path, rels: seq<Path>)
    requires rels != [] && Placeable(fs, from, to, rels)
    requires fs1.files == fs.files[Join(to, rels[0]) := fs.files[Join(from, rels[0])]]
    requires fs1.dirs == fs.dirs + Ancestors(Join(to, rels[0]))
    ensures Placeable(fs1, from, to, rels[1..])
  {
    var r := rels[0];
    forall q | q in rels[1..]
      ensures Join(from, q) in fs1.files && Free(fs1, Join(to, q))
    {
      assert q in rels;
      JoinUnder(to, q, r);
      JoinUnder(to, r, q);
      forall a | a in Ancestors(Join(to, q))
        ensures a !in fs1.files
      {
        assert a in fs.files ==> a in Ancestors(Join(to, q)) * fs.files.Keys;
      }
    }
  }

  lemma PlacedStep(files: map<Path, Content>, from: Path, to: Path, rels: seq<Path>)
    requires rels != [] && forall r :: r in rels ==> Join(from, r) in files
    requires forall r, q :: r in rels && q in rels ==> Join(from, r) != Join(to, q)
    ensures var files1 := files[Join(to, rels[0]) := files[Join(from, rels[0])]];
            (forall r :: r in rels[1..] ==> Join(from, r) in files1)
            && files1 + Placed(files1, from, to, rels[1..]) == files + Placed(files, from, to, rels)
  {
    hide *;
    var first := Join(to, rels[0]);
    var files1 := files[first := files[Join(from, rels[0])]];
    PlacedFirst(files, from, to, rels);
    PlacedRest(files, from, to, rels);
    var all, rest := Placed(files, from, to, rels), Placed(files1, from, to, rels[1..]);
    assert (files1 + rest).Keys == (files + all).Keys;
  }

  lemma PlacedFirst(files: map<Path, Content>, from: Path, to: Path, rels: seq<Path>)
    requires rels != [] && forall r :: r in rels ==> Join(from, r) in files
    ensures Placed(files, from, to, rels).Keys == Targets(to, rels[1..]) + {Join(to, rels[0])}
    ensures Placed(files, from, to, rels)[Join(to, rels[0])] == files[Join(from, rels[0])]
  {
    hide Join;
    hide Rel;
    assert forall r :: r in rels <==> r == rels[0] || r in rels[1..];
    assert Targets(to, rels) == Targets(to, rels[1..]) + {Join(to, rels[0])};
  }

  lemma PlacedRest(files: map<Path, Content>, from: Path, to: Path, rels: seq<Path>)
    requires rels != [] && forall r :: r in rels ==> Join(from, r) in files
    requires forall r, q :: r in rels && q in rels ==> Join(from, r) != Join(to, q)
    ensures var files1 := files[Join(to, rels[0]) := files[Join(from, rels[0])]];
            (forall r :: r in rels[1..] ==> Join(from, r) in files1)
            && Placed(files1, from, to, rels[1..]).Keys == Targets(to, rels[1..])
            && forall p :: p in Targets(to, rels[1..]) && p in Placed(files, from, to, rels) ==>
                             Placed(files1, from, to, rels[1..])[p] == Placed(files, from, to, rels)[p]
  {
    hide Join;
    hide Rel;
    hide Under;
    var files1 := files[Join(to, rels[0]) := files[Join(from, rels[0])]];
    forall p | p in Targets(to, rels[1..])
      ensures Join(from, Rel(to, p)) != Join(to, rels[0])
    {
      var r :| r in rels[1..] && p == Join(to, r);
      assert Rel(to, p) == r && r in rels;
    }
  }

  /** Whatever happens, placing keeps the tree well formed and never loses a file or a directory. */
  lemma {:induction false} PlaceAllKeeps(fs: FileSystem, from: Path, to: Path, rels: seq<Path>)
    requires WellFormed(fs)
    ensures var e := PlaceAll(fs, from, to, rels);
            WellFormed(e.fs) && fs.dirs <= e.fs.dirs && fs.files.Keys <= e.fs.files.Keys
            && (e.ok ==> forall r :: r in rels ==> Ancestors(Join(to, r)) * fs.files.Keys == {})
    decreases |rels|
  {
    hide Place;
    if rels != [] {
      PlaceKeeps(fs, Join(from, rels[0]), Join(to, rels[0]));
      var e := Place(fs, Join(from, rels[0]), Join(to, rels[0]));
      if e.ok {
        PlaceAllKeeps(e.fs, from, to, rels[1..]);
        assert forall r :: r in rels ==> r == rels[0] || r in rels[1..];
      }
    }
  }

  /** Outside the targets and what lies below them, no file changes and no directory appears except above a target. */
  lemma {:induction false} PlaceAllFrame(fs: FileSystem, from: Path, to: Path, rels: seq<Path>, p: Path)
    requires forall r :: r in rels ==> !AtOrUnder(Join(to, r), p)
    ensures var e := PlaceAll(fs, from, to, rels);
            (p in e.fs.files <==> p in fs.files) && (p in fs.files ==> e.fs.files[p] == fs.files[p])
    decreases |rels|
  {
    hide Place;
    if rels != [] {
      PlaceFrame(fs, Join(from, rels[0]), Join(to, rels[0]), p);
      var e := Place(fs, Join(from, rels[0]), Join(to, rels[0]));
      if e.ok {
        PlaceAllFrame(e.fs, from, to, rels[1..], p);
      }
    }
  }

  // ----- where the copies land -----

  /** Where the copy of `r` lands: on its target, or inside it when that is a directory. */
  function Landing(fs: FileSystem, from: Path, to: Path, r: Path): Path {
    CopyTarget(fs, Join(from, r), Join(to, r))
  }

  function Landings(fs: FileSystem, from: Path, to: Path, rels: seq<Path>): set<Path> {
    set r | r in rels :: Landing(fs, from, to, r)
  }

  /** Placing `r` succeeds: there is a source, no file stands above the target, no directory where the copy lands. */
  predicate CanPlace(fs: FileSystem, from: Path, to: Path, r: Path) {
    && Join(from, r) in fs.files && Ancestors(Join(to, r)) * fs.files.Keys == {}
    && Landing(fs, from, to, r) !in fs.dirs && Landing(fs, from, to, r) != Join(from, r)
  }

  /** How many files are placed before the first that cannot be. */
  function Done(fs: FileSystem, from: Path, to: Path, rels: seq<Path>): (n: nat)
    ensures n <= |rels|
  {
    if rels == [] || !CanPlace(fs, from, to, rels[0]) then 0 else 1 + Done(fs, from, to, rels[1..])
  }

  lemma {:induction false} BaseNoSlash(p: Path)
    ensures '/' !in Base(p)
  {
    if p != "" && p[|p| - 1] != '/' {
      BaseNoSlash(p[..|p| - 1]);
    }
  }

  /** Nothing lies between a directory and a name in it. */
  lemma AboveName(dir: Path, name: string, a: Path)
    requires '/' !in name
    ensures Under(a, Join(dir, name)) <==> a == dir || Under(a, dir)
  {
    var p := Join(dir, name);
    assert forall k :: |dir| < k < |p| ==> p[k] == name[k - |dir| - 1];
    if |a| < |dir| {
      assert p[..|a|] == dir[..|a|];
    }
  }

  lemma SameName(dir: Path, name: string, dir1: Path, name1: string)
    requires '/' !in name && '/' !in name1 && Join(dir, name) == Join(dir1, name1)
    ensures dir == dir1
  {
    AboveName(dir, name, dir1);
    AboveName(dir1, name1, dir);
  }

  /** One placement, exactly. */
  lemma PlaceExact(fs: FileSystem, from: Path, to: Path, r: Path)
    ensures var e, target := Place(fs, Join(from, r), Join(to, r)), Join(to, r);
            && (e.ok <==> CanPlace(fs, from, to, r)) && (e.ok ==> Join(from, r) in fs.files)
            && (e.ok ==> e.fs == FileSystem(fs.files[Landing(fs, from, to, r) := fs.files[Join(from, r)]],
                                            fs.dirs + Ancestors(target)))
            && (!e.ok ==> e.fs.files == fs.files && fs.dirs <= e.fs.dirs <= fs.dirs + Ancestors(target))
  {
    var source, target := Join(from, r), Join(to, r);
    BaseNoSlash(source);
    var inside := Join(target, Base(source));
    forall a | a in Ancestors(inside)
      ensures a == target || a in Ancestors(target)
    {
      AboveName(target, Base(source), a);
    }
    if target in fs.dirs {
      assert inside !in Ancestors(target);
    }
  }

  /** Where a copy lands is at its target or below it. */
  lemma LandsAtOrUnder(fs: FileSystem, from: Path, to: Path, r: Path)
    ensures AtOrUnder(Join(to, r), Landing(fs, from, to, r))
  {
  }

  /** A placement moves no other landing, when neither target lies below the other. */
  lemma LandingStays(fs: FileSystem, fs1: FileSystem, from: Path, to: Path, r: Path, q: Path)
    requires fs.dirs <= fs1.dirs <= fs.dirs + Ancestors(Join(to, r)) && !Under(q, r)
    ensures Landing(fs1, from, to, q) == Landing(fs, from, to, q)
  {
    JoinUnder(to, q, r);
  }

  /** None of the targets lies below another. */
  ghost predicate Unnested(rels: seq<Path>) {
    forall r, q :: r in rels && q in rels ==> !Under(r, q)
  }

  /** Whether it succeeds or raises, placing writes only where copies land. */
  lemma {:induction false} PlaceAllLandings(fs: FileSystem, from: Path, to: Path, rels: seq<Path>, p: Path)
    requires Unnested(rels) && p !in Landings(fs, from, to, rels)
    ensures var e := PlaceAll(fs, from, to, rels);
            (p in e.fs.files <==> p in fs.files) && (p in fs.files ==> e.fs.files[p] == fs.files[p])
    decreases |rels|
  {
    hide Under;
    hide CanPlace;
    hide Place;
    if rels != [] {
      var e := Place(fs, Join(from, rels[0]), Join(to, rels[0]));
      PlaceExact(fs, from, to, rels[0]);
      assert Landing(fs, from, to, rels[0]) in Landings(fs, from, to, rels);
      if e.ok {
        hide Landing;
        forall q | q in rels[1..]
          ensures Landing(e.fs, from, to, q) == Landing(fs, from, to, q)
          ensures Landing(fs, from, to, q) in Landings(fs, from, to, rels)
        {
          LandingStays(fs, e.fs, from, to, rels[0], q);
        }
        PlaceAllLandings(e.fs, from, to, rels[1..], p);
      }
    }
  }

  /** Different files of an unnested list, none of which lands on the source of another. */
  ghost predicate Apart(fs: FileSystem, from: Path, to: Path, rels: seq<Path>) {
    && Unnested(rels)
    && (forall i, j :: 0 <= i < j < |rels| ==> rels[i] != rels[j])
    && (forall r, q :: r in rels && q in rels ==> Join(from, r) != Landing(fs, from, to, q))
  }

  /** The copies of `rels` have landed, and nothing else has changed. */
  ghost predicate Landed(fs: FileSystem, fs1: FileSystem, from: Path, to: Path, rels: seq<Path>) {
    && (forall r :: r in rels ==>
          && Join(from, r) in fs.files && Landing(fs, from, to, r) in fs1.files
          && fs1.files[Landing(fs, from, to, r)] == fs.files[Join(from, r)])
    && (forall p :: p !in Landings(fs, from, to, rels) ==>
          (p in fs1.files <==> p in fs.files) && (p in fs.files ==> fs1.files[p] == fs.files[p]))
  }

  /** Placing, exactly: it does all that come before the first that cannot be placed, and no more. */
  lemma {:induction false} PlaceAllExact(fs: FileSystem, from: Path, to: Path, rels: seq<Path>)
    requires Apart(fs, from, to, rels)
    ensures var e, n := PlaceAll(fs, from, to, rels), Done(fs, from, to, rels);
            (e.ok <==> n == |rels|) && Landed(fs, e.fs, from, to, rels[..n])
    decreases |rels|
  {
    hide *;
    if rels == [] {
      NothingLanded(fs, from, to, rels);
    } else {
      var r, rest := rels[0], rels[1..];
      var e := Place(fs, Join(from, r), Join(to, r));
      PlaceExact(fs, from, to, r);
      DoneStep(fs, from, to, rels);
      PlaceAllHead(fs, from, to, rels);
      if e.ok {
        ApartStep(fs, e.fs, from, to, rels);
        PlaceAllExact(e.fs, from, to, rest);
        var n := Done(e.fs, from, to, rest);
        assert rels[..n + 1] == [r] + rest[..n];
        LandedStep(fs, e.fs, PlaceAll(fs, from, to, rels).fs, from, to, rels, n);
      } else {
        SameFilesLanded(fs, e.fs, from, to);
        assert rels[..0] == [];
      }
    }
  }

  lemma NothingLanded(fs: FileSystem, from: Path, to: Path, rels: seq<Path>)
    requires rels == []
    ensures PlaceAll(fs, from, to, rels) == Effect(fs, true) && Done(fs, from, to, rels) == 0
    ensures Landed(fs, fs, from, to, rels[..0])
  {
  }

  lemma SameFilesLanded(fs: FileSystem, fs1: FileSystem, from: Path, to: Path)
    requires fs.files == fs1.files
    ensures Landed(fs, fs1, from, to, [])
  {
  }

  lemma DoneStep(fs: FileSystem, from: Path, to: Path, rels: seq<Path>)
    requires rels != []
    ensures Done(fs, from, to, rels) == if CanPlace(fs, from, to, rels[0]) then 1 + Done(fs, from, to, rels[1..]) else 0
  {
    hide CanPlace;
  }

  /** After the first placement, the rest can be placed exactly as before it. */
  lemma ApartStep(fs: FileSystem, fs1: FileSystem, from: Path, to: Path, rels: seq<Path>)
    requires rels != [] && Apart(fs, from, to, rels)
    requires var r := rels[0];
             && Join(from, r) in fs.files
             && fs1.files == fs.files[Landing(fs, from, to, r) := fs.files[Join(from, r)]]
             && fs1.dirs == fs.dirs + Ancestors(Join(to, r))
    ensures Apart(fs1, from, to, rels[1..])
    ensures Done(fs1, from, to, rels[1..]) == Done(fs, from, to, rels[1..])
    ensures forall q :: q in rels[1..] ==> Landing(fs1, from, to, q) == Landing(fs, from, to, q)
  {
    var r, rest := rels[0], rels[1..];
    forall q | q in rest
      ensures Landing(fs1, from, to, q) == Landing(fs, from, to, q)
      ensures CanPlace(fs1, from, to, q) <==> CanPlace(fs, from, to, q)
    {
      LandingStays(fs, fs1, from, to, r, q);
      StillCanPlace(fs, fs1, from, to, r, q);
    }
    hide CanPlace;
    hide Landing;
    hide Under;
    SameDone(fs, fs1, from, to, rest);
  }

  lemma {:induction false} SameDone(fs: FileSystem, fs1: FileSystem, from: Path, to: Path, rels: seq<Path>)
    requires forall q :: q in rels ==> (CanPlace(fs1, from, to, q) <==> CanPlace(fs, from, to, q))
    ensures Done(fs1, from, to, rels) == Done(fs, from, to, rels)
  {
    hide CanPlace;
    if rels != [] {
      SameDone(fs, fs1, from, to, rels[1..]);
    }
  }

  lemma StillCanPlace(fs: FileSystem, fs1: FileSystem, from: Path, to: Path, r: Path, q: Path)
    requires Join(from, r) in fs.files
    requires fs1.files == fs.files[Landing(fs, from, to, r) := fs.files[Join(from, r)]]
    requires fs1.dirs == fs.dirs + Ancestors(Join(to, r))
    requires !Under(r, q) && !Under(q, r) && Join(from, q) != Landing(fs, from, to, r)
    ensures CanPlace(fs1, from, to, q) <==> CanPlace(fs, from, to, q)
  {
    LandingStays(fs, fs1, from, to, r, q);
    LandsAtOrUnder(fs, from, to, r);
    LandsAtOrUnder(fs, from, to, q);
    JoinUnder(to, r, q);
    JoinUnder(to, q, r);
    var x, y := Landing(fs, from, to, r), Landing(fs, from, to, q);
    if Under(x, Join(to, q)) && x != Join(to, r) {
      UnderTransitive(Join(to, r), x, Join(to, q));
    }
    if Under(y, Join(to, r)) && y != Join(to, q) {
      UnderTransitive(Join(to, q), y, Join(to, r));
    }
    hide Under;
    hide Landing;
    assert Ancestors(Join(to, q)) * fs1.files.Keys == Ancestors(Join(to, q)) * fs.files.Keys;
  }

  /** Different files land on different paths. */
  lemma LandingsDiffer(fs: FileSystem, from: Path, to: Path, r: Path, q: Path)
    requires r != q && !Under(r, q) && !Under(q, r)
    ensures Landing(fs, from, to, r) != Landing(fs, from, to, q)
  {
    BaseNoSlash(Join(from, r));
    BaseNoSlash(Join(from, q));
    JoinUnder(to, r, q);
    JoinUnder(to, q, r);
    if Join(to, r) in fs.dirs && Join(to, q) in fs.dirs && Landing(fs, from, to, r) == Landing(fs, from, to, q) {
      SameName(Join(to, r), Base(Join(from, r)), Join(to, q), Base(Join(from, q)));
    }
  }

  lemma LandedStep(fs: FileSystem, fs1: FileSystem, fs2: FileSystem, from: Path, to: Path, rels: seq<Path>, n: nat)
    requires rels != [] && n < |rels| && Apart(fs, from, to, rels)
    requires var r := rels[0];
             Join(from, r) in fs.files && fs1.files == fs.files[Landing(fs, from, to, r) := fs.files[Join(from, r)]]
    requires forall q :: q in rels[1..] ==> Landing(fs1, from, to, q) == Landing(fs, from, to, q)
    requires Landed(fs1, fs2, from, to, rels[1..][..n])
    ensures Landed(fs, fs2, from, to, [rels[0]] + rels[1..][..n])
  {
    var r, some := rels[0], rels[1..][..n];
    forall q | q in some
      ensures q in rels[1..] && q in rels && q != r
    {
    }
    ApartParts(fs, from, to, rels);
    hide *;
    var x := Landing(fs, from, to, r);
    forall q | q in some
      ensures Landing(fs, from, to, q) != x && Join(from, q) != x
              && Landing(fs1, from, to, q) == Landing(fs, from, to, q)
    {
      LandingsDiffer(fs, from, to, r, q);
    }
    LandedMore(fs, fs1, fs2, from, to, r, some);
  }

  lemma ApartParts(fs: FileSystem, from: Path, to: Path, rels: seq<Path>)
    requires Apart(fs, from, to, rels)
    ensures forall r, q :: r in rels && q in rels ==> !Under(r, q) && Join(from, r) != Landing(fs, from, to, q)
  {
    hide Under;
    hide Landing;
  }

  lemma LandedMore(fs: FileSystem, fs1: FileSystem, fs2: FileSystem, from: Path, to: Path, r: Path, some: seq<Path>)
    requires Join(from, r) in fs.files && fs1.files == fs.files[Landing(fs, from, to, r) := fs.files[Join(from, r)]]
    requires forall q :: q in some ==>
               && Landing(fs, from, to, q) != Landing(fs, from, to, r) && Join(from, q) != Landing(fs, from, to, r)
               && Landing(fs1, from, to, q) == Landing(fs, from, to, q)
    requires Landed(fs1, fs2, from, to, some)
    ensures Landed(fs, fs2, from, to, [r] + some)
  {
    hide Landing;
    hide Join;
    var x := Landing(fs, from, to, r);
    LandingsMore(fs, fs1, from, to, r, some);
    hide Landings;
    forall q | q in [r] + some
      ensures Join(from, q) in fs.files && Landing(fs, from, to, q) in fs2.files
              && fs2.files[Landing(fs, from, to, q)] == fs.files[Join(from, q)]
    {
      assert q == r || q in some;
    }
  }

  lemma LandingsMore(fs: FileSystem, fs1: FileSystem, from: Path, to: Path, r: Path, some: seq<Path>)
    requires forall q :: q in some ==>
               && Landing(fs, from, to, q) != Landing(fs, from, to, r)
               && Landing(fs1, from, to, q) == Landing(fs, from, to, q)
    ensures Landings(fs1, from, to, some) == Landings(fs, from, to, some)
    ensures Landings(fs, from, to, [r] + some) == {Landing(fs, from, to, r)} + Landings(fs, from, to, some)
    ensures Landing(fs, from, to, r) !in Landings(fs, from, to, some)
  {
    hide Landing;
    assert forall q :: q in [r] + some <==> q == r || q in some;
  }

  /** The only directories that appear are those above a target. */
  lemma {:induction false} PlaceAllDirs(fs: FileSystem, from: Path, to: Path, rels: seq<Path>)
    ensures PlaceAll(fs, from, to, rels).fs.dirs <= fs.dirs + Parents(to, rels)
    decreases |rels|
  {
    if rels != [] {
      var e := Place(fs, Join(from, rels[0]), Join(to, rels[0]));
      assert e.fs.dirs <= fs.dirs + Parents(to, rels);
      if e.ok {
        PlaceAllDirs(e.fs, from, to, rels[1..]);
        assert Parents(to, rels[1..]) <= Parents(to, rels);
      }
    }
  }

  /** `unlink` for one path after the other. */
  function UnlinkAll(fs: FileSystem, dir: Path, rels: seq<Path>): Effect
    decreases |rels|
  {
    if rels == [] then Effect(fs, true)
    else
      var e := Unlink(fs, Join(dir, rels[0]));
      if e.ok then UnlinkAll(e.fs, dir, rels[1..]) else e
  }

  lemma {:induction false} UnlinkAllEffect(fs: FileSystem, dir: Path, rels: seq<Path>)
    requires WellFormed(fs)
    ensures var e := UnlinkAll(fs, dir, rels);
            WellFormed(e.fs) && e.fs.dirs == fs.dirs && e.fs.files.Keys <= fs.files.Keys
            && (forall p :: p in e.fs.files ==> e.fs.files[p] == fs.files[p])
            && (forall p :: p in fs.files && p !in e.fs.files ==> exists r :: r in rels && p == Join(dir, r))
    decreases |rels|
  {
    hide Join;
    if rels != [] {
      var e := Unlink(fs, Join(dir, rels[0]));
      if e.ok {
        UnlinkAllEffect(e.fs, dir, rels[1..]);
        assert forall r :: r in rels <==> r == rels[0] || r in rels[1..];
      }
    }
  }

  /** When no target is a directory, exactly the targets go. */
  lemma {:induction false} UnlinkAllTargets(fs: FileSystem, dir: Path, rels: seq<Path>)
    requires Targets(dir, rels) !! fs.dirs
    ensures UnlinkAll(fs, dir, rels) == Effect(fs.(files := fs.files - Targets(dir, rels)), true)
    decreases |rels|
  {
    hide Join;
    if rels == [] {
      assert fs.files - Targets(dir, rels) == fs.files;
    } else {
      assert Targets(dir, rels) == {Join(dir, rels[0])} + Targets(dir, rels[1..]);
      UnlinkAllTargets(Unlink(fs, Join(dir, rels[0])).fs, dir, rels[1..]);
      assert fs.files - Targets(dir, rels) == fs.files - {Join(dir, rels[0])} - Targets(dir, rels[1..]);
    }
  }

  lemma PlaceAllHead(fs: FileSystem, from: Path, to: Path, rels: seq<Path>)
    ensures rels == [] ==> PlaceAll(fs, from, to, rels) == Effect(fs, true)
    ensures rels != [] ==>
              var e := Place(fs, Join(from, rels[0]), Join(to, rels[0]));
              PlaceAll(fs, from, to, rels) == (if e.ok then PlaceAll(e.fs, from, to, rels[1..]) else e)
  {
  }

  lemma UnlinkAllHead(fs: FileSystem, dir: Path, rels: seq<Path>)
    ensures rels == [] ==> UnlinkAll(fs, dir, rels) == Effect(fs, true)
    ensures rels != [] ==>
              var e := Unlink(fs, Join(dir, rels[0]));
              UnlinkAll(fs, dir, rels) == (if e.ok then UnlinkAll(e.fs, dir, rels[1..]) else e)
  {
  }
}
