/**
  `collectDbBoundModules` of `scripts/test-db-guardrails.mjs`: an in-place loop over the import graph
  that must find exactly the modules from which the database module can be reached.
 */
module ImportClosure {
  import opened Basics

  type Module = string

  const DbModule: Module := "src/db.mjs"

  /** A JavaScript `Map` from module to imports: its entries in insertion order. */
  datatype Import = Import(name: Module, deps: seq<Module>)
  type Graph = seq<Import>

  ghost predicate Imports(g: Graph, a: Module, b: Module) {
    exists i :: 0 <= i < |g| && g[i].name == a && b in g[i].deps
  }

  /** A non-empty import path: each module imports the next one. */
  ghost predicate IsPath(g: Graph, p: seq<Module>) {
    |p| >= 2 && forall i :: 0 <= i < |p| - 1 ==> Imports(g, p[i], p[i + 1])
  }

  ghost predicate DbBound(g: Graph, m: Module) {
    exists p :: IsPath(g, p) && p[0] == m && p[|p| - 1] == DbModule
  }

  lemma DirectlyBound(g: Graph, m: Module)
    requires Imports(g, m, DbModule)
    ensures DbBound(g, m)
  {
    assert IsPath(g, [m, DbModule]);
  }

  lemma BoundThrough(g: Graph, m: Module, dep: Module)
    requires Imports(g, m, dep) && DbBound(g, dep)
    ensures DbBound(g, m)
  {
    var p :| IsPath(g, p) && p[0] == dep && p[|p| - 1] == DbModule;
    var q := [m] + p;
    forall i | 0 <= i < |q| - 1
      ensures Imports(g, q[i], q[i + 1])
    {
      if i > 0 {
        assert Imports(g, p[i - 1], p[i - 1 + 1]);
      }
    }
    assert IsPath(g, q);
  }

  /** Direct importers of the database module, and importers of members, are members. */
  ghost predicate Closed(g: Graph, s: set<Module>) {
    && (forall i :: 0 <= i < |g| && DbModule in g[i].deps ==> g[i].name in s)
    && (forall i :: 0 <= i < |g| ==> Settled(g, s, i))
  }

  lemma {:induction false} ClosedHoldsPath(g: Graph, s: set<Module>, p: seq<Module>)
    requires Closed(g, s) && IsPath(g, p) && p[|p| - 1] == DbModule
    ensures p[0] in s
    decreases |p|
  {
    assert Imports(g, p[0], p[0 + 1]);
    var i :| 0 <= i < |g| && g[i].name == p[0] && p[1] in g[i].deps;
    assert Settled(g, s, i);
    if |p| > 2 {
      var q := p[1..];
      forall k | 0 <= k < |q| - 1
        ensures Imports(g, q[k], q[k + 1])
      {
        assert Imports(g, p[k + 1], p[k + 1 + 1]);
      }
      ClosedHoldsPath(g, s, q);
    }
  }

  lemma ClosedHoldsAll(g: Graph, s: set<Module>)
    requires Closed(g, s)
    ensures forall m :: DbBound(g, m) ==> m in s
  {
    forall m | DbBound(g, m)
      ensures m in s
    {
      var p :| IsPath(g, p) && p[0] == m && p[|p| - 1] == DbModule;
      ClosedHoldsPath(g, s, p);
    }
  }

  function Names(g: Graph): set<Module> {
    set i | 0 <= i < |g| :: g[i].name
  }

  /** `deps.some((dep) => dbBound.has(dep))`. */
  predicate SomeBound(deps: seq<Module>, s: set<Module>) {
    exists dep :: dep in deps && dep in s
  }

  ghost predicate OnlyBound(g: Graph, s: set<Module>) {
    s <= Names(g) && forall m :: m in s ==> DbBound(g, m)
  }

  /** Entry `j` is accounted for: it is a member when one of its imports is. */
  ghost predicate Settled(g: Graph, s: set<Module>, j: nat)
    requires j < |g|
  {
    SomeBound(g[j].deps, s) ==> g[j].name in s
  }

  lemma OnlyBoundGrows(g: Graph, s: set<Module>, i: nat)
    requires OnlyBound(g, s) && i < |g| && (DbModule in g[i].deps || SomeBound(g[i].deps, s))
    ensures OnlyBound(g, s + {g[i].name})
  {
    if DbModule in g[i].deps {
      DirectlyBound(g, g[i].name);
    } else {
      var dep :| dep in g[i].deps && dep in s;
      BoundThrough(g, g[i].name, dep);
    }
  }

  method CollectDbBoundModules(g: Graph) returns (dbBound: set<Module>)
    ensures forall m :: m in dbBound <==> DbBound(g, m)
  {
    hide DbBound;
    hide SomeBound;
    dbBound := {};
    for i := 0 to |g|
      invariant OnlyBound(g, dbBound)
      invariant forall j :: 0 <= j < i && DbModule in g[j].deps ==> g[j].name in dbBound
    {
      if DbModule in g[i].deps {
        OnlyBoundGrows(g, dbBound, i);
        dbBound := dbBound + {g[i].name};
      }
    }

    var changed := true;
    while changed
      invariant OnlyBound(g, dbBound)
      invariant forall j :: 0 <= j < |g| && DbModule in g[j].deps ==> g[j].name in dbBound
      invariant !changed ==> Closed(g, dbBound)
      decreases |Names(g) - dbBound|, changed
    {
      ghost var before := dbBound;
      changed := false;
      for i := 0 to |g|
        invariant OnlyBound(g, dbBound) && before <= dbBound
        invariant forall j :: 0 <= j < |g| && DbModule in g[j].deps ==> g[j].name in dbBound
        invariant if changed then before < dbBound else before == dbBound
        invariant !changed ==> forall j :: 0 <= j < i ==> Settled(g, dbBound, j)
      {
        if g[i].name in dbBound {
          continue;
        }
        if SomeBound(g[i].deps, dbBound) {
          OnlyBoundGrows(g, dbBound, i);
          dbBound := dbBound + {g[i].name};
          changed := true;
        }
      }
      if changed {
        Shrinks(Names(g), before, dbBound);
      }
    }
    ClosedHoldsAll(g, dbBound);
  }

  lemma Shrinks(all: set<Module>, a: set<Module>, b: set<Module>)
    requires a < b <= all
    ensures |all - b| < |all - a|
  {
    assert all - b < all - a;
    SmallerSet(all - b, all - a);
  }

  lemma SmallerSet(a: set<Module>, b: set<Module>)
    requires a < b
    ensures |a| < |b|
  {
    var x :| x in b && x !in a;
    SubsetSize(a, b - {x});
  }

  /** The set of bound modules is that of the graph, whatever the order of its entries. */
  lemma OrderIrrelevant(g: Graph, h: Graph, m: Module)
    requires forall e :: e in g <==> e in h
    ensures DbBound(g, m) <==> DbBound(h, m)
  {
    if DbBound(g, m) {
      SamePaths(g, h, m);
    }
    if DbBound(h, m) {
      SamePaths(h, g, m);
    }
  }

  lemma SamePaths(g: Graph, h: Graph, m: Module)
    requires forall e :: e in g ==> e in h
    requires DbBound(g, m)
    ensures DbBound(h, m)
  {
    var p :| IsPath(g, p) && p[0] == m && p[|p| - 1] == DbModule;
    forall i | 0 <= i < |p| - 1
      ensures Imports(h, p[i], p[i + 1])
    {
      assert Imports(g, p[i], p[i + 1]);
      var k :| 0 <= k < |g| && g[k].name == p[i] && p[i + 1] in g[k].deps;
      assert g[k] in h;
    }
    assert IsPath(h, p);
  }
}
