/** The package worklist of `windows_input_digest.py`: which workspace packages a Windows build reads. */
module PackageGraph {
  import opened Common

  /** One entry of a dependency table, as far as the walk looks at it.  A local path is given by the directory
      it resolves to. */
  datatype Dependency = NotLocal | InvalidPath | Local(dir: string)

  /** What reading a directory's `Cargo.toml` gives. */
  datatype Manifest = Unreadable | Readable(dependencies: seq<Dependency>)

  /** `manifests` holds exactly the directories that have a `Cargo.toml`; `workspace` those under edge-platform. */
  datatype Tree = Tree(workspace: set<string>, manifests: map<string, Manifest>)

  // -------------------------------------------------------------------------
  // Specification

  /** A local dependency the walk can follow. */
  predicate Followable(t: Tree, dir: string) {
    dir in t.workspace && dir in t.manifests
  }

  ghost predicate DependsOn(t: Tree, a: string, b: string) {
    a in t.manifests && t.manifests[a].Readable? && Local(b) in t.manifests[a].dependencies
  }

  /** `path` leads from a root to `dir` along declared local dependencies. */
  ghost predicate Leads(t: Tree, roots: seq<string>, path: seq<string>, dir: string) {
    if path == [] then dir in roots
    else
      var n := |path| - 1;
      Leads(t, roots, path[..n], path[n]) && DependsOn(t, path[n], dir)
  }

  ghost predicate Reachable(t: Tree, roots: seq<string>, dir: string) {
    exists path :: Leads(t, roots, path, dir)
  }

  /** What makes the walk fail at a package: it lies outside the workspace, cannot be read, or declares a local
      dependency that is invalid, escapes, or has no manifest. */
  ghost predicate Faulty(t: Tree, dir: string) {
    || dir !in t.workspace
    || dir !in t.manifests
    || t.manifests[dir].Unreadable?
    || InvalidPath in t.manifests[dir].dependencies
    || exists b :: Local(b) in t.manifests[dir].dependencies && !Followable(t, b)
  }

  ghost predicate Closed(t: Tree, roots: seq<string>, visited: set<string>) {
    && (forall r :: r in roots ==> r in visited)
    && (forall a, b :: a in visited && DependsOn(t, a, b) ==> b in visited)
  }

  // -------------------------------------------------------------------------
  // Facts about paths

  lemma RootReachable(t: Tree, roots: seq<string>, r: string)
    requires r in roots
    ensures Reachable(t, roots, r)
  {
    assert Leads(t, roots, [], r);
  }

  lemma StepReachable(t: Tree, roots: seq<string>, a: string, b: string)
    requires Reachable(t, roots, a) && DependsOn(t, a, b)
    ensures Reachable(t, roots, b)
  {
    var path :| Leads(t, roots, path, a);
    assert (path + [a])[..|path|] == path;
    assert Leads(t, roots, path + [a], b);
  }

  lemma {:induction false} ClosedCoversPath(t: Tree, roots: seq<string>, visited: set<string>, path: seq<string>, dir: string)
    requires Closed(t, roots, visited) && Leads(t, roots, path, dir)
    ensures dir in visited
    decreases |path|
  {
    if path == [] {
      assert dir in roots;
    } else {
      ClosedCoversPath(t, roots, visited, path[..|path| - 1], path[|path| - 1]);
    }
  }

  lemma ClosedCoversReachable(t: Tree, roots: seq<string>, visited: set<string>, dir: string)
    requires Closed(t, roots, visited) && Reachable(t, roots, dir)
    ensures dir in visited
  {
    var path :| Leads(t, roots, path, dir);
    ClosedCoversPath(t, roots, visited, path, dir);
  }

  // -------------------------------------------------------------------------
  // The walk

  /** Scans one package's dependency tables; stops at the first fault. */
  method CollectDependencies(t: Tree, dependencies: seq<Dependency>, pending: seq<string>)
    returns (r: Result<seq<string>>)
    ensures r.Ok? <==> InvalidPath !in dependencies && forall b :: Local(b) in dependencies ==> Followable(t, b)
    ensures r.Ok? ==> forall x :: x in r.value <==> x in pending || Local(x) in dependencies
  {
    var more := pending;
    var i := 0;
    while i < |dependencies|
      invariant 0 <= i <= |dependencies|
      invariant forall x :: x in more <==> x in pending || Local(x) in dependencies[..i]
      invariant forall j :: 0 <= j < i ==> !dependencies[j].InvalidPath?
      invariant forall j :: 0 <= j < i && dependencies[j].Local? ==> Followable(t, dependencies[j].dir)
    {
      var d := dependencies[i];
      assert dependencies[..i + 1] == dependencies[..i] + [d];
      match d {
        case NotLocal =>
        case InvalidPath =>
          return Err("invalid local dependency path");
        case Local(dir) =>
          if dir !in t.workspace {
            return Err("local dependency escapes edge-platform");
          }
          if dir !in t.manifests {
            return Err("local dependency manifest is missing");
          }
          more := more + [dir];
      }
      i := i + 1;
    }
    assert dependencies[..i] == dependencies;
    r := Ok(more);
  }

  /** What the worklist loop keeps. */
  ghost predicate WalkInv(t: Tree, roots: seq<string>, pending: seq<string>, visited: set<string>) {
    && (forall x :: x in pending || x in visited ==> Reachable(t, roots, x))
    && (forall r :: r in roots ==> r in pending || r in visited)
    && (forall a :: a in visited ==> !Faulty(t, a))
    && (forall a, b :: a in visited && DependsOn(t, a, b) ==> b in pending || b in visited)
    && (forall x :: x in pending ==> x in t.manifests)
  }

  lemma VisitKeepsInv(t: Tree, roots: seq<string>, pending: seq<string>, rest: seq<string>, more: seq<string>, visited: set<string>, dir: string)
    requires WalkInv(t, roots, pending, visited)
    requires forall x :: x in pending <==> x in rest || x == dir
    requires dir in pending && !Faulty(t, dir)
    requires forall x :: x in more <==> x in rest || Local(x) in t.manifests[dir].dependencies
    ensures WalkInv(t, roots, more, visited + {dir})
  {
    forall x | x in more ensures Reachable(t, roots, x) {
      if x !in rest {
        assert DependsOn(t, dir, x);
        StepReachable(t, roots, dir, x);
      }
    }
    forall x | x in more ensures x in t.manifests {
      if x !in rest {
        assert Local(x) in t.manifests[dir].dependencies;
        assert Followable(t, x);
      }
    }
  }

  lemma SkipKeepsInv(t: Tree, roots: seq<string>, pending: seq<string>, rest: seq<string>, visited: set<string>, dir: string)
    requires WalkInv(t, roots, pending, visited) && dir in visited
    requires forall x :: x in pending <==> x in rest || x == dir
    ensures WalkInv(t, roots, rest, visited)
  {
  }

  /** A package on the worklist has a manifest, and a fault in it is a reachable fault. */
  lemma PendingReachable(t: Tree, roots: seq<string>, pending: seq<string>, visited: set<string>, dir: string)
    requires WalkInv(t, roots, pending, visited) && dir in pending
    ensures dir in t.manifests
    ensures Faulty(t, dir) ==> !AllSound(t, roots)
  {
  }

  /** Reads one package and adds its local dependencies to the worklist; fails exactly at a faulty one. */
  method VisitPackage(t: Tree, dir: string, rest: seq<string>) returns (r: Result<seq<string>>)
    requires dir in t.manifests
    ensures r.Ok? <==> !Faulty(t, dir)
    ensures r.Ok? ==> forall x :: x in r.value <==> x in rest || Local(x) in t.manifests[dir].dependencies
  {
    if dir !in t.workspace {
      return Err("local dependency escapes edge-platform");
    }
    if t.manifests[dir].Unreadable? {
      return Err("manifest cannot be read");
    }
    r := CollectDependencies(t, t.manifests[dir].dependencies, rest);
  }

  ghost predicate AllSound(t: Tree, roots: seq<string>) {
    forall dir :: Reachable(t, roots, dir) ==> !Faulty(t, dir)
  }

  lemma WalkBegins(t: Tree, roots: seq<string>)
    ensures (forall x :: x in roots ==> x in t.manifests) ==> WalkInv(t, roots, roots, {})
    ensures (exists x :: x in roots && x !in t.manifests) ==> !AllSound(t, roots)
  {
    forall x | x in roots ensures Reachable(t, roots, x) {
      RootReachable(t, roots, x);
    }
  }

  lemma WalkEnds(t: Tree, roots: seq<string>, visited: set<string>)
    requires WalkInv(t, roots, [], visited)
    ensures forall dir :: dir in visited <==> Reachable(t, roots, dir)
    ensures AllSound(t, roots)
  {
    assert Closed(t, roots, visited);
    forall dir | Reachable(t, roots, dir) ensures dir in visited {
      ClosedCoversReachable(t, roots, visited, dir);
    }
  }

  /** `_reachable_package_dirs`, up to the sorting of its result.  It ends on every finite tree, cyclic or not. */
  method ReachablePackageDirs(t: Tree, roots: seq<string>) returns (r: Result<set<string>>)
    ensures r.Ok? ==> forall dir :: dir in r.value <==> Reachable(t, roots, dir)
    ensures r.Ok? <==> AllSound(t, roots)
  {
    WalkBegins(t, roots);
    if exists x :: x in roots && x !in t.manifests {
      return Err("required Windows package is missing");
    }
    var pending, visited := roots, {};
    while pending != []
      invariant WalkInv(t, roots, pending, visited)
      decreases t.manifests.Keys - visited, |pending|
    {
      var dir := pending[|pending| - 1];
      var rest := pending[..|pending| - 1];
      assert pending == rest + [dir];
      assert dir in pending;
      if dir in visited {
        SkipKeepsInv(t, roots, pending, rest, visited, dir);
        pending := rest;
        continue;
      }
      PendingReachable(t, roots, pending, visited, dir);
      var more := VisitPackage(t, dir, rest);
      if more.Err? {
        return Err(more.code);
      }
      VisitKeepsInv(t, roots, pending, rest, more.value, visited, dir);
      visited := visited + {dir};
      pending := more.value;
    }
    WalkEnds(t, roots, visited);
    r := Ok(visited);
  }
}
