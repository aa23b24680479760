/** The set of protected modules of xauusd/agent_engineering.py: everything the load-bearing modules
    import, directly or through others, found with a work list. */
module ProtectedClosure {
  import opened Prelude

  type Name = string

  /** Relative imports of the modules that have a readable source file; others import nothing. */
  type Imports = map<Name, seq<Name>>

  function ImportsOf(g: Imports, name: Name): seq<Name> { if name in g then g[name] else [] }

  /** A chain of imports from a root. */
  ghost predicate Chain(g: Imports, roots: seq<Name>, path: seq<Name>) {
    && path != [] && path[0] in roots
    && forall i :: 0 <= i < |path| - 1 ==> path[i + 1] in ImportsOf(g, path[i])
  }

  ghost predicate Reached(g: Imports, roots: seq<Name>, name: Name) {
    exists path :: Chain(g, roots, path) && path[|path| - 1] == name
  }

  /** Every name that can occur: roots, and imports of any module. */
  function Universe(g: Imports, roots: seq<Name>): set<Name> {
    (set r | r in roots) + (set m, i | m in g.Keys && 0 <= i < |g[m]| :: g[m][i])
  }

  lemma StepReaches(g: Imports, roots: seq<Name>, name: Name, x: Name)
    requires Reached(g, roots, name) && x in ImportsOf(g, name)
    ensures Reached(g, roots, x)
  {
    var path :| Chain(g, roots, path) && path[|path| - 1] == name;
    assert Chain(g, roots, path + [x]);
    assert (path + [x])[|path|] == x;
  }

  lemma RootReaches(g: Imports, roots: seq<Name>, name: Name)
    requires name in roots
    ensures Reached(g, roots, name)
  {
    assert Chain(g, roots, [name]);
  }

  /** What has been visited is closed under imports, up to the work still pending. */
  ghost predicate ClosedUpTo(g: Imports, visited: set<Name>, pending: seq<Name>) {
    forall name, x :: name in visited && x in ImportsOf(g, name) ==> x in visited || x in pending
  }

  lemma {:induction false} ChainVisited(g: Imports, roots: seq<Name>, visited: set<Name>, path: seq<Name>)
    requires Chain(g, roots, path) && ClosedUpTo(g, visited, []) && forall r :: r in roots ==> r in visited
    ensures path[|path| - 1] in visited
  {
    if |path| > 1 {
      var front := path[..|path| - 1];
      ChainVisited(g, roots, visited, front);
      assert path[|path| - 2 + 1] in ImportsOf(g, path[|path| - 2]);
    }
  }

  ghost predicate AllReached(g: Imports, roots: seq<Name>, visited: set<Name>, pending: seq<Name>) {
    && (forall x :: x in visited ==> Reached(g, roots, x) && x in Universe(g, roots))
    && (forall x :: x in pending ==> Reached(g, roots, x) && x in Universe(g, roots))
  }

  /** The work list ends, and what it has visited is exactly what some chain of imports reaches. */
  method Closure(g: Imports, roots: seq<Name>) returns (visited: set<Name>)
    ensures forall name :: name in visited <==> Reached(g, roots, name)
  {
    hide Universe, Reached, ImportsOf;
    visited := {};
    var pending := roots;
    Start(g, roots);
    while pending != []
      invariant AllReached(g, roots, visited, pending)
      invariant ClosedUpTo(g, visited, pending)
      invariant forall r :: r in roots ==> r in visited || r in pending
      invariant visited <= Universe(g, roots)
      decreases Universe(g, roots) - visited, |pending|
    {
      var name := pending[|pending| - 1];
      assert pending == pending[..|pending| - 1] + [name];
      pending := pending[..|pending| - 1];
      if name !in visited {
        Expand(g, roots, visited, pending, name);
        visited := visited + {name};
        pending := pending + ImportsOf(g, name);
      }
    }
    forall name | Reached(g, roots, name) ensures name in visited {
      ReachedIsVisited(g, roots, visited, name);
    }
  }

  lemma ReachedIsVisited(g: Imports, roots: seq<Name>, visited: set<Name>, name: Name)
    requires Reached(g, roots, name) && ClosedUpTo(g, visited, []) && forall r :: r in roots ==> r in visited
    ensures name in visited
  {
    var path :| Chain(g, roots, path) && path[|path| - 1] == name;
    ChainVisited(g, roots, visited, path);
  }

  lemma Start(g: Imports, roots: seq<Name>)
    ensures AllReached(g, roots, {}, roots) && ClosedUpTo(g, {}, roots)
  {
    forall x | x in roots ensures Reached(g, roots, x) && x in Universe(g, roots) {
      RootReaches(g, roots, x);
    }
  }

  lemma Expand(g: Imports, roots: seq<Name>, visited: set<Name>, pending: seq<Name>, name: Name)
    requires AllReached(g, roots, visited, pending + [name]) && ClosedUpTo(g, visited, pending + [name])
    ensures AllReached(g, roots, visited + {name}, pending + ImportsOf(g, name)) && ClosedUpTo(g, visited + {name}, pending + ImportsOf(g, name))
    ensures name in Universe(g, roots)
  {
    assert name in pending + [name];
    hide Universe;
    forall x | x in ImportsOf(g, name) ensures Reached(g, roots, x) {
      StepReaches(g, roots, name, x);
    }
    hide Reached, ImportsOf;
  }

  /** What is protected only grows when a module is added to a protected one's imports. */
  lemma MoreImportsMoreProtected(g: Imports, h: Imports, roots: seq<Name>, name: Name)
    requires forall m, x :: x in ImportsOf(g, m) ==> x in ImportsOf(h, m)
    requires Reached(g, roots, name)
    ensures Reached(h, roots, name)
  {
    var path :| Chain(g, roots, path) && path[|path| - 1] == name;
    assert Chain(h, roots, path);
  }

  /** Only the imports of what is protected decide what is protected. */
  lemma {:induction false} SameImportsSameChain(g: Imports, h: Imports, roots: seq<Name>, path: seq<Name>)
    requires forall name :: Reached(g, roots, name) ==> ImportsOf(h, name) == ImportsOf(g, name)
    requires Chain(h, roots, path)
    ensures Chain(g, roots, path)
  {
    if |path| > 1 {
      var front := path[..|path| - 1];
      SameImportsSameChain(g, h, roots, front);
      assert Reached(g, roots, front[|front| - 1]);
      assert path[|path| - 2 + 1] in ImportsOf(h, path[|path| - 2]);
      forall i | 0 <= i < |path| - 1 ensures path[i + 1] in ImportsOf(g, path[i]) {
        if i < |front| - 1 {
          assert front[i + 1] in ImportsOf(g, front[i]);
        }
      }
    }
  }

  lemma ProtectionStays(g: Imports, h: Imports, roots: seq<Name>, name: Name)
    requires forall name :: Reached(g, roots, name) ==> ImportsOf(h, name) == ImportsOf(g, name)
    ensures Reached(g, roots, name) <==> Reached(h, roots, name)
  {
    if Reached(h, roots, name) {
      var path :| Chain(h, roots, path) && path[|path| - 1] == name;
      SameImportsSameChain(g, h, roots, path);
    }
    if Reached(g, roots, name) {
      var path :| Chain(g, roots, path) && path[|path| - 1] == name;
      forall i | 0 <= i < |path| - 1 ensures path[i + 1] in ImportsOf(h, path[i]) {
        assert Chain(g, roots, path[..i + 1]);
        assert path[..i + 1][|path[..i + 1]| - 1] == path[i];
        assert Reached(g, roots, path[i]);
      }
    }
  }
}
