/** Loading a program with its imports: a depth-first walk that puts dependencies first. */
module Loader {
  import opened Basics

  type Path = string
  type Spec = string

  datatype Source<!D> = Source(imports: seq<Spec>, decls: seq<D>)

  /** The files that can be read, and the candidate paths an import is looked for at, in order. */
  datatype FileSystem<!D> = FileSystem(files: map<Path, Source<D>>, candidates: (Path, Spec) -> seq<Path>) {
    function FirstFile(cands: seq<Path>): Option<Path> {
      if cands == [] then None else if cands[0] in files then Some(cands[0]) else FirstFile(cands[1..])
    }

    function Resolve(importer: Path, spec: Spec): (r: Option<Path>)
      ensures r.Some? ==> r.value in files
    {
      FirstFileExists(candidates(importer, spec));
      FirstFile(candidates(importer, spec))
    }

    lemma {:induction false} FirstFileExists(cands: seq<Path>)
      ensures FirstFile(cands).Some? ==> FirstFile(cands).value in files
    {
      if cands != [] && cands[0] !in files { FirstFileExists(cands[1..]); }
    }

    /** The first candidate that can be read is found: no earlier one can be; and none is found if and only
        if none can be read. */
    lemma {:induction false} FirstFileIsFirst(cands: seq<Path>, p: Path)
      ensures FirstFile(cands) == Some(p)
              <==> exists i :: 0 <= i < |cands| && cands[i] == p && p in files && forall j :: 0 <= j < i ==> cands[j] !in files
      ensures FirstFile(cands) == None <==> forall i :: 0 <= i < |cands| ==> cands[i] !in files
      decreases |cands|
    {
      if cands != [] && cands[0] !in files {
        var more := cands[1..];
        FirstFileIsFirst(more, p);
        if i :| 0 <= i < |more| && more[i] == p && p in files && forall j :: 0 <= j < i ==> more[j] !in files {
          assert cands[i + 1] == p && forall j :: 0 < j < i + 1 ==> cands[j] == more[j - 1];
        }
        if i :| 0 <= i < |cands| && cands[i] == p && p in files && forall j :: 0 <= j < i ==> cands[j] !in files {
          assert more[i - 1] == p && forall j :: 0 <= j < i - 1 ==> more[j] == cands[j + 1];
        }
      }
    }

    /** The i-th import of u is v. */
    predicate Imports(u: Path, i: nat, v: Path) {
      u in files && i < |files[u].imports| && Resolve(u, files[u].imports[i]) == Some(v)
    }

    ghost predicate Edge(u: Path, v: Path) { exists i :: Imports(u, i, v) }

    /** v is reached from u over n imports. */
    ghost predicate ReachesIn(n: nat, u: Path, v: Path)
      decreases n
    {
      if n == 0 then u == v else exists w :: Edge(u, w) && ReachesIn(n - 1, w, v)
    }

    ghost predicate Reaches(u: Path, v: Path) { exists n: nat :: ReachesIn(n, u, v) }

    /** Every import of u is found. */
    predicate AllFound(u: Path) {
      u in files && forall i :: 0 <= i < |files[u].imports| ==> Resolve(u, files[u].imports[i]).Some?
    }

    lemma ReachesSelf(u: Path)
      ensures Reaches(u, u)
    {
      assert ReachesIn(0, u, u);
    }

    lemma {:induction false} ReachesInThenEdge(n: nat, u: Path, v: Path, w: Path)
      requires ReachesIn(n, u, v) && Edge(v, w)
      ensures ReachesIn(n + 1, u, w)
      decreases n
    {
      if n == 0 { assert ReachesIn(0, w, w); } else {
        var x :| Edge(u, x) && ReachesIn(n - 1, x, v);
        ReachesInThenEdge(n - 1, x, v, w);
      }
    }

    lemma ReachesThenEdge(u: Path, v: Path, w: Path)
      requires Reaches(u, v) && Edge(v, w)
      ensures Reaches(u, w)
    {
      var n: nat :| ReachesIn(n, u, v);
      ReachesInThenEdge(n, u, v, w);
    }

    lemma EdgeThenReaches(u: Path, v: Path, w: Path)
      requires Edge(u, v) && Reaches(v, w)
      ensures Reaches(u, w)
    {
      var n: nat :| ReachesIn(n, v, w);
      assert ReachesIn(n + 1, u, w);
    }

    /** A set that contains the imports of its members contains everything they reach. */
    lemma {:induction false} ClosedContainsReached(s: set<Path>, n: nat, u: Path, v: Path)
      requires u in s && ReachesIn(n, u, v)
      requires forall x, y :: x in s && Edge(x, y) ==> y in s
      ensures v in s
      decreases n
    {
      if n > 0 {
        var w :| Edge(u, w) && ReachesIn(n - 1, w, v);
        ClosedContainsReached(s, n - 1, w, v);
      }
    }

    /** v was loaded before the i-th program, or the imports run in a circle. */
    ghost predicate DependencyFirst(programs: seq<Path>, i: nat, v: Path)
      requires i < |programs|
    {
      v in programs[..i] || Reaches(v, programs[i])
    }

    /** Dependencies first: what a program imports comes before it, unless it reaches that program itself. */
    ghost predicate Ordered(programs: seq<Path>) {
      forall i, v :: 0 <= i < |programs| && Edge(programs[i], v) ==> DependencyFirst(programs, i, v)
    }

    /** The loader's lists at any time. */
    ghost predicate Consistent(visited: seq<Path>, programs: seq<Path>) {
      && NoDup(visited) && NoDup(programs)
      && (forall p :: p in programs ==> p in visited && AllFound(p))
      && (forall p :: p in visited ==> p in files)
      && (forall p, v :: p in programs && Edge(p, v) ==> v in visited)
      && Ordered(programs)
    }

    /** Everything being loaded reaches p. */
    ghost predicate AllReach(pending: set<Path>, p: Path) { forall s :: s in pending ==> Reaches(s, p) }

    /** What loading a file keeps: the lists only grow, what began to load is loaded, and all that is
        new is reached from that file. */
    ghost predicate Grown(visited: seq<Path>, programs: seq<Path>, visited': seq<Path>, programs': seq<Path>, from: Path) {
      && Consistent(visited', programs') && visited <= visited' && programs <= programs'
      && Pending(visited', programs') == Pending(visited, programs)
      && forall p :: p in visited' ==> p in visited || Reaches(from, p)
    }

    /** The same while the first n imports of path have been loaded. */
    ghost predicate Loading(visited: seq<Path>, programs: seq<Path>, visited': seq<Path>, programs': seq<Path>, path: Path, n: nat) {
      && path in files && path !in visited && AllReach(Pending(visited, programs), path)
      && Consistent(visited', programs') && visited + [path] <= visited' && programs <= programs'
      && Pending(visited', programs') == Pending(visited, programs) + {path}
      && (forall p :: p in visited' ==> p in visited || Reaches(path, p))
      && (forall k, v :: 0 <= k < n && Imports(path, k, v) ==> v in visited')
      && (forall k :: 0 <= k < n && k < |files[path].imports| ==> Resolve(path, files[path].imports[k]).Some?)
    }

    lemma Begin(visited: seq<Path>, programs: seq<Path>, path: Path)
      requires Consistent(visited, programs) && path in files && path !in visited
      requires AllReach(Pending(visited, programs), path)
      ensures Loading(visited, programs, visited + [path], programs, path, 0)
    {
      ReachesSelf(path);
      assert Elements(visited + [path]) == Elements(visited) + {path};
    }

    lemma NextImport(v0: seq<Path>, p0: seq<Path>, v1: seq<Path>, p1: seq<Path>, path: Path, n: nat, target: Path)
      requires Loading(v0, p0, v1, p1, path, n) && Imports(path, n, target)
      ensures AllReach(Pending(v1, p1), target)
    {
      assert Edge(path, target);
      ReachesSelf(path);
      forall s | s in Pending(v1, p1) ensures Reaches(s, target) { ReachesThenEdge(s, path, target); }
    }

    lemma ImportLoaded(v0: seq<Path>, p0: seq<Path>, v1: seq<Path>, p1: seq<Path>, v2: seq<Path>, p2: seq<Path>,
                       path: Path, n: nat, target: Path)
      requires Loading(v0, p0, v1, p1, path, n) && Imports(path, n, target)
      requires Grown(v1, p1, v2, p2, target) && target in v2
      ensures Loading(v0, p0, v2, p2, path, n + 1)
    {
      assert Edge(path, target);
      forall p | p in v2 ensures p in v0 || Reaches(path, p) {
        if p !in v1 { EdgeThenReaches(path, target, p); }
      }
    }

    /** A program whose imports are all loaded or being loaded is added. */
    lemma Finish(v0: seq<Path>, p0: seq<Path>, v1: seq<Path>, p1: seq<Path>, path: Path)
      requires path in files && Loading(v0, p0, v1, p1, path, |files[path].imports|)
      ensures path in v1 && Grown(v0, p0, v1, p1 + [path], path)
    {
      assert path in Pending(v1, p1);
      ReachesSelf(path);
      OrderedSnoc(v1, p1, path);
      assert Elements(p1 + [path]) == Elements(p1) + {path};
      assert path !in Pending(v0, p0);
    }

    lemma OrderedSnoc(visited: seq<Path>, programs: seq<Path>, path: Path)
      requires Ordered(programs) && AllReach(Pending(visited, programs), path)
      requires forall v :: Edge(path, v) ==> v in visited
      ensures Ordered(programs + [path])
    {
      var more := programs + [path];
      forall i, v | 0 <= i < |more| && Edge(more[i], v) ensures DependencyFirst(more, i, v) {
        if i < |programs| {
          assert DependencyFirst(programs, i, v);
          assert more[..i] == programs[..i];
        } else {
          assert more[..i] == programs;
          if v !in programs { assert v in Pending(visited, programs); }
        }
      }
    }

    /** An import under `from` that nothing answers to. */
    ghost predicate ImportMissing(from: Path) { exists u :: Reaches(from, u) && u in files && !AllFound(u) }

    lemma MissingBelow(path: Path, n: nat, target: Path)
      requires Imports(path, n, target) && ImportMissing(target)
      ensures ImportMissing(path)
    {
      assert Edge(path, target);
      var u :| Reaches(target, u) && u in files && !AllFound(u);
      EdgeThenReaches(path, target, u);
    }

    lemma MissingHere(path: Path, n: nat)
      requires path in files && n < |files[path].imports| && Resolve(path, files[path].imports[n]).None?
      ensures ImportMissing(path)
    {
      ReachesSelf(path);
    }

    /** When everything visited is loaded, that is exactly what the root reaches. */
    lemma LoadedIsReached(root: Path, visited: seq<Path>, programs: seq<Path>)
      requires Grown([], [], visited, programs, root) && root in visited
      ensures forall p :: p in programs <==> Reaches(root, p)
      ensures !ImportMissing(root)
    {
      var loaded := Elements(programs);
      forall p | p in visited ensures p in programs {
        assert Pending(visited, programs) == Pending([], []) == {};
        assert p !in programs ==> p in Pending(visited, programs);
      }
      forall x, y | x in loaded && Edge(x, y) ensures y in loaded {}
      forall p | Reaches(root, p) ensures p in programs {
        var n: nat :| ReachesIn(n, root, p);
        ClosedContainsReached(loaded, n, root, p);
      }
    }

    function Decls(programs: seq<Path>): seq<D>
      requires forall p :: p in programs ==> p in files
    {
      if programs == [] then [] else Decls(programs[..|programs| - 1]) + files[programs[|programs| - 1]].decls
    }

    lemma {:induction false} DeclsAppend(a: seq<Path>, b: seq<Path>)
      requires forall p :: p in a + b ==> p in files
      ensures Decls(a + b) == Decls(a) + Decls(b)
      decreases |b|
    {
      if b == [] { assert a + b == a; } else {
        var init, last := b[..|b| - 1], b[|b| - 1];
        assert (a + b)[..|a + b| - 1] == a + init && b == init + [last];
        DeclsAppend(a, init);
      }
    }

    /** In the merged program the declarations of an import come before those of the importer, unless
        the imports run in a circle. */
    lemma DeclarationsInOrder(programs: seq<Path>, u: Path, v: Path)
      returns (before: seq<D>, between: seq<D>, after: seq<D>)
      requires Ordered(programs) && (forall p :: p in programs ==> p in files)
      requires u in programs && Edge(u, v) && !Reaches(v, u)
      ensures Decls(programs) == before + files[v].decls + between + files[u].decls + after
    {
      var j :| 0 <= j < |programs| && programs[j] == u;
      assert DependencyFirst(programs, j, v);
      var i :| 0 <= i < j && programs[..j][i] == v;
      var a, b, c := programs[..i], programs[i + 1..j], programs[j + 1..];
      Cut(programs, i, j);
      DeclsSplit(a, v, b, u, c);
      before, between, after := Decls(a), Decls(b), Decls(c);
    }

    lemma Cut(programs: seq<Path>, i: nat, j: nat)
      requires i < j < |programs|
      ensures programs == ((programs[..i] + [programs[i]]) + programs[i + 1..j] + [programs[j]]) + programs[j + 1..]
    {
    }

    lemma DeclsSplit(a: seq<Path>, v: Path, b: seq<Path>, u: Path, c: seq<Path>)
      requires forall p :: p in ((a + [v]) + b + [u]) + c ==> p in files
      ensures v in files && u in files && (forall p :: p in a + b + c ==> p in files)
      ensures Decls(((a + [v]) + b + [u]) + c) == Decls(a) + files[v].decls + Decls(b) + files[u].decls + Decls(c)
    {
      DeclsAppend((a + [v]) + b + [u], c);
      DeclsAppend((a + [v]) + b, [u]);
      DeclsAppend(a + [v], b);
      DeclsAppend(a, [v]);
    }

    /** How many files can still be visited. */
    ghost function Unvisited(visited: seq<Path>): nat { |files.Keys - Elements(visited)| }

    lemma {:induction false} VisitMore(visited: seq<Path>, visited': seq<Path>)
      requires visited <= visited'
      ensures Unvisited(visited') <= Unvisited(visited)
      decreases |visited'|
    {
      if visited == visited' {
      } else {
        var n := |visited'| - 1;
        VisitMore(visited, visited'[..n]);
        assert visited' == visited'[..n] + [visited'[n]];
        assert files.Keys - Elements(visited') == (files.Keys - Elements(visited'[..n])) - {visited'[n]};
      }
    }

    lemma VisitOne(visited: seq<Path>, path: Path)
      requires path in files && path !in visited
      ensures Unvisited(visited + [path]) < Unvisited(visited)
    {
      assert files.Keys - Elements(visited + [path]) == (files.Keys - Elements(visited)) - {path};
    }
  }

  predicate NoDup(s: seq<Path>) { forall i, j :: 0 <= i < j < |s| ==> s[i] != s[j] }

  function Elements(s: seq<Path>): set<Path> { set p | p in s }

  /** Being loaded: visited, but the program is not there yet. */
  function Pending(visited: seq<Path>, programs: seq<Path>): set<Path> { Elements(visited) - Elements(programs) }

  class LoadCtx<!D> {
    const fs: FileSystem<D>
    var visited: seq<Path>
    var programs: seq<Path>

    constructor (fs: FileSystem<D>)
      ensures this.fs == fs && visited == [] && programs == []
    {
      this.fs := fs;
      visited, programs := [], [];
    }

    method LoadOnce(path: Path) returns (ok: bool)
      requires fs.Consistent(visited, programs) && path in fs.files
      requires fs.AllReach(Pending(visited, programs), path)
      modifies this
      ensures ok ==> fs.Grown(old(visited), old(programs), visited, programs, path) && path in visited
      ensures !ok ==> fs.ImportMissing(path)
      decreases fs.Unvisited(visited), 1
    {
      if path in visited { return true; }
      ok := LoadSource(path);
    }

    /** Try the candidates of an import in order. */
    method LoadImport(importer: Path, spec: Spec) returns (found: bool, ok: bool)
      requires fs.Consistent(visited, programs)
      requires forall v :: fs.Resolve(importer, spec) == Some(v) ==> fs.AllReach(Pending(visited, programs), v)
      modifies this
      ensures found == fs.Resolve(importer, spec).Some?
      ensures found && ok ==> var v := fs.Resolve(importer, spec).value;
                              fs.Grown(old(visited), old(programs), visited, programs, v) && v in visited
      ensures found && !ok ==> fs.ImportMissing(fs.Resolve(importer, spec).value)
      decreases fs.Unvisited(visited), 2
    {
      var cands := fs.candidates(importer, spec);
      for i := 0 to |cands|
        invariant visited == old(visited) && programs == old(programs)
        invariant fs.FirstFile(cands) == fs.FirstFile(cands[i..])
      {
        if cands[i] in fs.files {
          assert fs.Resolve(importer, spec) == Some(cands[i]);
          ok := LoadOnce(cands[i]);
          return true, ok;
        }
        assert cands[i..][1..] == cands[i + 1..];
      }
      return false, true;
    }

    method LoadSource(path: Path) returns (ok: bool)
      requires fs.Consistent(visited, programs) && path in fs.files && path !in visited
      requires fs.AllReach(Pending(visited, programs), path)
      modifies this
      ensures ok ==> fs.Grown(old(visited), old(programs), visited, programs, path) && path in visited
      ensures ok ==> programs != [] && programs[|programs| - 1] == path
      ensures !ok ==> fs.ImportMissing(path)
      decreases fs.Unvisited(visited), 0
    {
      ghost var v0, p0 := visited, programs;
      fs.Begin(v0, p0, path);
      fs.VisitOne(v0, path);
      visited := visited + [path];
      var i := 0;
      while i < |fs.files[path].imports|
        invariant 0 <= i <= |fs.files[path].imports| && fs.Loading(v0, p0, visited, programs, path, i)
      {
        fs.VisitMore(v0 + [path], visited);
        ok := LoadNth(path, i, v0, p0);
        if !ok { return; }
        i := i + 1;
      }
      fs.Finish(v0, p0, visited, programs, path);
      programs := programs + [path];
      ok := true;
    }

    /** One import of a file that is being loaded; the compiler gives up when it is not found. */
    method LoadNth(path: Path, i: nat, ghost v0: seq<Path>, ghost p0: seq<Path>) returns (ok: bool)
      requires fs.Loading(v0, p0, visited, programs, path, i) && i < |fs.files[path].imports|
      modifies this
      ensures ok ==> fs.Loading(v0, p0, visited, programs, path, i + 1)
      ensures !ok ==> fs.ImportMissing(path)
      decreases fs.Unvisited(visited), 3
    {
      ghost var v1, p1 := visited, programs;
      var spec := fs.files[path].imports[i];
      ghost var target := fs.Resolve(path, spec);
      if target.Some? { fs.NextImport(v0, p0, v1, p1, path, i, target.value); }
      var found;
      found, ok := LoadImport(path, spec);
      if !found {
        fs.MissingHere(path, i);
        return false;
      }
      if !ok {
        fs.MissingBelow(path, i, target.value);
        return false;
      }
      fs.ImportLoaded(v0, p0, v1, p1, visited, programs, path, i, target.value);
    }

    /** Load a program. The lists hold exactly what the root reaches, each file once and the root last,
        dependencies first; loading fails exactly when an import somewhere below the root is not found. */
    method LoadFile(root: Path) returns (ok: bool)
      requires visited == [] && programs == [] && root in fs.files
      modifies this
      ensures ok <==> !fs.ImportMissing(root)
      ensures ok ==> NoDup(programs) && fs.Ordered(programs) && programs != [] && programs[|programs| - 1] == root
      ensures ok ==> forall p :: p in programs <==> fs.Reaches(root, p)
    {
      ok := LoadSource(root);
      if ok { fs.LoadedIsReached(root, visited, programs); }
    }

    /** All declarations, in the order of the programs. */
    method MergePrograms() returns (decls: seq<D>)
      requires forall p :: p in programs ==> p in fs.files
      ensures decls == fs.Decls(programs)
    {
      decls := [];
      for i := 0 to |programs|
        invariant decls == fs.Decls(programs[..i])
      {
        var more := fs.files[programs[i]].decls;
        ghost var before := decls;
        for k := 0 to |more|
          invariant decls == before + more[..k]
        {
          decls := decls + [more[k]];
        }
        assert programs[..i + 1][..i] == programs[..i] && more[..|more|] == more;
      }
      assert programs[..|programs|] == programs;
    }
  }
}
