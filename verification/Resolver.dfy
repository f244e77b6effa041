/** The library closure computed by export_runtime in scripts/build-migration-backend.py. */
module Resolver {
  import opened Bytes

  type File(==,!new) = nat         // a resolved path
  type Name = string

  datatype Target = Inside(file: File) | Rejected     // root_file raised

  /** The build root: what each arm64 ELF file needs, and where each library name leads;
      a name outside `target` has no candidate path. */
  datatype Root = Root(needed: map<File, seq<Name>>, target: map<Name, Target>)

  datatype Error = NotArm64(file: File) | Missing(name: Name) | BadPath(name: Name)
  datatype Outcome = Libraries(found: map<Name, File>) | Failed(error: Error)

  // ------------------------------------------------------------------ reachability

  predicate Resolves(root: Root, name: Name) {
    name in root.target && root.target[name].Inside?
  }

  /** File f names g among its needed libraries. */
  ghost predicate Edge(root: Root, f: File, g: File) {
    f in root.needed
    && exists name :: name in root.needed[f] && Resolves(root, name) && root.target[name].file == g
  }

  ghost predicate IsPath(root: Root, programs: seq<File>, path: seq<File>) {
    && path != [] && path[0] in programs
    && forall i :: 0 <= i < |path| - 1 ==> Edge(root, path[i], path[i + 1])
  }

  /** Some chain of NEEDED entries leads from a program to f. */
  ghost predicate Reachable(root: Root, programs: seq<File>, f: File) {
    exists path :: IsPath(root, programs, path) && path[|path| - 1] == f
  }

  ghost predicate Wanted(root: Root, programs: seq<File>, name: Name) {
    exists f :: Reachable(root, programs, f) && f in root.needed && name in root.needed[f]
  }

  /** Everything reachable is an arm64 ELF file and every wanted name resolves. */
  ghost predicate Complete(root: Root, programs: seq<File>) {
    && (forall f :: Reachable(root, programs, f) ==> f in root.needed)
    && (forall name :: Wanted(root, programs, name) ==> Resolves(root, name))
  }

  lemma ReachProgram(root: Root, programs: seq<File>, f: File)
    requires f in programs
    ensures Reachable(root, programs, f)
  {
    assert IsPath(root, programs, [f]);
  }

  lemma ReachStep(root: Root, programs: seq<File>, f: File, name: Name)
    requires Reachable(root, programs, f) && f in root.needed && name in root.needed[f] && Resolves(root, name)
    ensures Reachable(root, programs, root.target[name].file)
  {
    var path :| IsPath(root, programs, path) && path[|path| - 1] == f;
    var g := root.target[name].file;
    assert Edge(root, f, g);
    assert IsPath(root, programs, path + [g]);
  }

  /** Any set that holds the programs and is closed under Edge holds every reachable file. */
  lemma {:induction false} ClosedHoldsPath(root: Root, programs: seq<File>, closed: set<File>, path: seq<File>)
    requires IsPath(root, programs, path)
    requires forall f :: f in programs ==> f in closed
    requires forall f, g :: f in closed && Edge(root, f, g) ==> g in closed
    ensures path[|path| - 1] in closed
    decreases |path|
  {
    var n := |path| - 1;
    if n > 0 {
      ClosedHoldsPath(root, programs, closed, path[..n]);
      assert Edge(root, path[n - 1], path[n]);
    }
  }

  // ------------------------------------------------------------------ the worklist

  /** What is known of the libraries so far: each is wanted and resolved where it leads. */
  ghost predicate Sound(root: Root, programs: seq<File>, libraries: map<Name, File>) {
    forall name :: name in libraries ==>
      Wanted(root, programs, name) && Resolves(root, name) && libraries[name] == root.target[name].file
  }

  ghost predicate AllReachable(root: Root, programs: seq<File>, files: seq<File>) {
    forall f :: f in files ==> Reachable(root, programs, f)
  }

  ghost predicate Covered(libraries: map<Name, File>, inspected: set<File>, pending: seq<File>) {
    forall name :: name in libraries ==> libraries[name] in inspected || libraries[name] in pending
  }

  function Universe(root: Root): set<Name> {
    set f, name | f in root.needed && name in root.needed[f] :: name
  }

  /** One file's NEEDED entries: known names are skipped, new ones resolved and queued. */
  method AddNeeded(root: Root, ghost programs: seq<File>, file: File, ghost inspected: set<File>,
                   libraries: map<Name, File>, pending: seq<File>)
    returns (error: Option<Error>, libraries': map<Name, File>, pending': seq<File>)
    requires file in root.needed && Reachable(root, programs, file)
    requires Sound(root, programs, libraries) && AllReachable(root, programs, pending)
    requires Covered(libraries, inspected, pending) && libraries.Keys <= Universe(root)
    ensures error.Some? ==> !Complete(root, programs)
    ensures Sound(root, programs, libraries') && AllReachable(root, programs, pending')
    ensures Covered(libraries', inspected, pending') && libraries.Keys <= libraries'.Keys <= Universe(root)
    ensures forall f :: f in pending ==> f in pending'
    ensures pending' == pending || libraries.Keys < libraries'.Keys
    ensures error.None? ==> forall name :: name in root.needed[file] ==> name in libraries'
  {
    error, libraries', pending' := None, libraries, pending;
    var names, i := root.needed[file], 0;
    while i < |names|
      invariant i <= |names|
      invariant Sound(root, programs, libraries') && AllReachable(root, programs, pending')
      invariant Covered(libraries', inspected, pending') && libraries.Keys <= libraries'.Keys <= Universe(root)
      invariant forall f :: f in pending ==> f in pending'
      invariant pending' == pending || libraries.Keys < libraries'.Keys
      invariant forall j :: 0 <= j < i ==> names[j] in libraries'
    {
      var name := names[i];
      if name !in libraries' {
        assert Wanted(root, programs, name);
        if name !in root.target {
          error := Some(Missing(name));
          return;
        }
        if root.target[name].Rejected? {
          error := Some(BadPath(name));
          return;
        }
        ReachStep(root, programs, file, name);
        libraries' := libraries'[name := root.target[name].file];
        pending' := pending' + [root.target[name].file];
      }
      i := i + 1;
    }
  }

  /** Inspected files are done: their names are known. */
  ghost predicate Done(root: Root, inspected: set<File>, libraries: map<Name, File>) {
    forall f :: f in inspected ==>
      f in root.needed && forall name :: name in root.needed[f] ==> name in libraries
  }

  /** What the worklist keeps. */
  ghost predicate Tracked(root: Root, programs: seq<File>, libraries: map<Name, File>,
                          inspected: set<File>, pending: seq<File>) {
    && Sound(root, programs, libraries) && AllReachable(root, programs, pending)
    && Covered(libraries, inspected, pending) && libraries.Keys <= Universe(root)
    && (forall f :: f in programs ==> f in inspected || f in pending)
    && Done(root, inspected, libraries)
  }

  lemma StartsTracked(root: Root, programs: seq<File>)
    ensures Tracked(root, programs, map[], {}, programs)
  {
    forall f | f in programs ensures Reachable(root, programs, f) { ReachProgram(root, programs, f); }
  }

  /** The popped file is reachable, and covered once it counts as inspected. */
  lemma PopTracked(root: Root, programs: seq<File>, libraries: map<Name, File>, inspected: set<File>,
                   pending: seq<File>, file: File, rest: seq<File>)
    requires Tracked(root, programs, libraries, inspected, pending) && pending == rest + [file]
    ensures Reachable(root, programs, file)
    ensures Sound(root, programs, libraries) && AllReachable(root, programs, rest)
    ensures Covered(libraries, inspected + {file}, rest) && libraries.Keys <= Universe(root)
    ensures file in inspected ==> Tracked(root, programs, libraries, inspected, rest)
    ensures file !in root.needed ==> !Complete(root, programs)
  {
    assert forall f :: f in pending <==> f in rest || f == file;
    assert file in inspected ==> inspected + {file} == inspected;
  }

  /** After its names are known the popped file is done. */
  lemma TurnTracked(root: Root, programs: seq<File>, libraries: map<Name, File>, inspected: set<File>,
                    pending: seq<File>, file: File, rest: seq<File>, libraries': map<Name, File>, pending': seq<File>)
    requires Tracked(root, programs, libraries, inspected, pending) && pending == rest + [file]
    requires file in root.needed && forall name :: name in root.needed[file] ==> name in libraries'
    requires Sound(root, programs, libraries') && AllReachable(root, programs, pending')
    requires Covered(libraries', inspected + {file}, pending')
    requires libraries.Keys <= libraries'.Keys <= Universe(root)
    requires forall f :: f in rest ==> f in pending'
    ensures Tracked(root, programs, libraries', inspected + {file}, pending')
  {
    hide Sound, AllReachable, Covered, Universe;
    DoneGrows(root, inspected, file, libraries, libraries');
    assert forall f :: f in pending <==> f in rest || f == file;
  }

  lemma DoneGrows(root: Root, inspected: set<File>, file: File, libraries: map<Name, File>, libraries': map<Name, File>)
    requires Done(root, inspected, libraries) && libraries.Keys <= libraries'.Keys
    requires file in root.needed && forall name :: name in root.needed[file] ==> name in libraries'
    ensures Done(root, inspected + {file}, libraries')
  {
  }

  lemma NotMoreUnknown(universe: set<Name>, known: set<Name>, known': set<Name>)
    requires known <= known'
    ensures universe - known' <= universe - known
  {
  }

  lemma FewerUnknown(universe: set<Name>, known: set<Name>, known': set<Name>)
    requires known < known' <= universe
    ensures universe - known' < universe - known
  {
    var name :| name in known' && name !in known;
    assert name in universe - known && name !in universe - known';
  }

  /** The worklist.  It ends because each file queued after the programs comes with a name
      not known before.  It succeeds exactly when everything reachable is an arm64 file and
      every wanted name resolves, and then knows the wanted names and no others. */
  method Close(root: Root, programs: seq<File>) returns (r: Outcome)
    ensures r.Libraries? <==> Complete(root, programs)
    ensures r.Libraries? ==>
              && Sound(root, programs, r.found)
              && forall name :: name in r.found <==> Wanted(root, programs, name)
  {
    var libraries: map<Name, File>, pending, inspected: set<File> := map[], programs, {};
    StartsTracked(root, programs);
    while pending != []
      invariant Tracked(root, programs, libraries, inspected, pending)
      decreases Universe(root) - libraries.Keys, |pending|
    {
      hide *;
      var n := |pending| - 1;
      var file, rest := pending[n], pending[..n];
      assert pending == rest + [file];
      PopTracked(root, programs, libraries, inspected, pending, file, rest);
      if file in inspected {
        pending := rest;
      } else {
        if file !in root.needed {
          return Failed(NotArm64(file));
        }
        var error, libraries', pending' := AddNeeded(root, programs, file, inspected + {file}, libraries, rest);
        if error.Some? {
          return Failed(error.value);
        }
        TurnTracked(root, programs, libraries, inspected, pending, file, rest, libraries', pending');
        if pending' != rest {
          FewerUnknown(Universe(root), libraries.Keys, libraries'.Keys);
        }
        NotMoreUnknown(Universe(root), libraries.Keys, libraries'.Keys);
        inspected, libraries, pending := inspected + {file}, libraries', pending';
      }
    }
    ClosedHoldsAll(root, programs, libraries, inspected);
    return Libraries(libraries);
  }

  const LOADER: Name := "ld-linux-aarch64.so.1"

  /** The closure plus the loader, which is added whether or not anything names it. */
  method ExportLibraries(root: Root, programs: seq<File>, loader: Target) returns (r: Outcome)
    ensures r.Libraries? <==> Complete(root, programs) && loader.Inside?
    ensures r.Libraries? ==>
              && (forall name :: name in r.found <==> name == LOADER || Wanted(root, programs, name))
              && r.found[LOADER] == loader.file
              && forall name :: name in r.found && name != LOADER ==>
                   Resolves(root, name) && r.found[name] == root.target[name].file
  {
    r := Close(root, programs);
    if r.Libraries? {
      if loader.Rejected? {
        return Failed(BadPath(LOADER));
      }
      r := Libraries(r.found[LOADER := loader.file]);
    }
  }

  lemma ClosedHoldsAll(root: Root, programs: seq<File>, libraries: map<Name, File>, inspected: set<File>)
    requires Sound(root, programs, libraries) && Covered(libraries, inspected, [])
    requires forall f :: f in programs ==> f in inspected
    requires Done(root, inspected, libraries)
    ensures Complete(root, programs)
    ensures forall name :: Wanted(root, programs, name) ==> name in libraries
  {
    forall f | Reachable(root, programs, f)
      ensures f in inspected
    {
      var path :| IsPath(root, programs, path) && path[|path| - 1] == f;
      ClosedHoldsPath(root, programs, inspected, path);
    }
  }
}
