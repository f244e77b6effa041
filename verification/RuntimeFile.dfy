/** The bounded symlink walk of root_file in scripts/build-migration-backend.py. */
module RuntimeFile {
  import opened Bytes

  type Path(==, !new) = nat

  const MAX_TURNS: nat := 64

  /** The file system seen by one walk.  `link` gives the path a symlink leads to, an
      absolute one taken below the build root and any other below the link's directory;
      `resolve` is the system's own resolution and `inside` what lies below the root. */
  datatype Tree = Tree(link: map<Path, Path>, resolve: Path -> Path, inside: Path -> bool)

  datatype Found = File(path: Path) | Escaped | Loop

  /** The path after k links, or None if the chain ends before. */
  function Follow(t: Tree, p: Path, k: nat): Option<Path> {
    if k == 0 then Some(p)
    else
      var q := Follow(t, p, k - 1);
      if q.Some? && q.value in t.link then Some(t.link[q.value]) else None
  }

  /** The chain from p ends, after k links, at a path that is not a symlink. */
  predicate EndsAfter(t: Tree, p: Path, k: nat) {
    var q := Follow(t, p, k);
    q.Some? && q.value !in t.link
  }

  /** A file is returned exactly for a chain of fewer than 64 links that ends inside the
      root; a chain that short which ends elsewhere has escaped, and all others are loops. */
  method RootFile(t: Tree, name: Path) returns (r: Found, ghost links: nat)
    ensures r.Loop? <==> forall k: nat :: k < MAX_TURNS ==> !EndsAfter(t, name, k)
    ensures !r.Loop? ==> links < MAX_TURNS && EndsAfter(t, name, links)
    ensures !r.Loop? ==>
              var end := t.resolve(Follow(t, name, links).value);
              r == if t.inside(end) then File(end) else Escaped
  {
    var path := name;
    var turn := 0;
    links := 0;
    while turn < MAX_TURNS
      invariant turn == links <= MAX_TURNS
      invariant Follow(t, name, links) == Some(path)
      invariant forall k: nat :: k < links ==> !EndsAfter(t, name, k)
    {
      if path in t.link {
        path := t.link[path];
        links := links + 1;
      } else {
        assert EndsAfter(t, name, links);
        var resolved := t.resolve(path);
        if !t.inside(resolved) {
          return Escaped, links;
        }
        return File(resolved), links;
      }
      turn := turn + 1;
    }
    return Loop, links;
  }

  lemma {:induction false} NoneStays(t: Tree, p: Path, n: nat, k: nat)
    requires n <= k && Follow(t, p, n).None?
    ensures Follow(t, p, k).None?
    decreases k
  {
    if n < k {
      NoneStays(t, p, n, k - 1);
    }
  }

  /** A chain ends at most once, and after that nothing follows: the end RootFile finds is
      the only one there is. */
  lemma ChainEndsOnce(t: Tree, p: Path, k: nat, n: nat)
    requires EndsAfter(t, p, k)
    ensures EndsAfter(t, p, n) <==> n == k
    ensures Follow(t, p, n).Some? <==> n <= k
  {
    if n > k {
      NoneStays(t, p, k + 1, n);
    } else if n < k {
      if Follow(t, p, n + 1).None? {
        NoneStays(t, p, n + 1, k);
      } else if Follow(t, p, n).None? {
        NoneStays(t, p, n, k);
      }
    }
  }

  /** A chain that comes back to a path it has visited never ends. */
  lemma {:induction false} CycleNeverEnds(t: Tree, p: Path, a: nat, b: nat, n: nat)
    requires a < b && Follow(t, p, a).Some? && Follow(t, p, a) == Follow(t, p, b)
    ensures Follow(t, p, n).Some? && !EndsAfter(t, p, n)
    decreases n
  {
    if n >= b {
      CycleNeverEnds(t, p, a, b, n - (b - a));
      SameFuture(t, p, a, b, n - b);
    } else if Follow(t, p, n + 1).None? {
      NoneStays(t, p, n + 1, b);
    } else if Follow(t, p, n).None? {
      NoneStays(t, p, n, b);
    }
  }

  lemma {:induction false} SameFuture(t: Tree, p: Path, a: nat, b: nat, n: nat)
    requires Follow(t, p, a) == Follow(t, p, b)
    ensures Follow(t, p, a + n) == Follow(t, p, b + n)
  {
    if n > 0 {
      SameFuture(t, p, a, b, n - 1);
    }
  }
}
