/**
 * The filesystem the engine works on, and the operating-system calls it makes:
 * Path.exists / is_dir / is_file / stat, Path.iterdir, Path.rglob("*"), Path.mkdir,
 * shutil.move and Path.rmdir.  A filesystem is a map from locations to nodes; a file
 * carries its size in bytes and the local-time year and month of its modification time.
 * Which calls fail for reasons outside the map (permissions, devices) is given by
 * explicit sets of failing paths.
 */
module FileSystems {
  import opened Paths
  import opened Seqs
  import opened Wrappers

  type Month = m: nat | 1 <= m <= 12 witness 1

  /** datetime.fromtimestamp(st_mtime), as far as the engine reads it. */
  datatype Stamp = Stamp(year: nat, month: Month)

  datatype Node = File(size: nat, modified: Stamp) | Dir

  type Nodes = map<Path, Node>

  /** "/" is a directory and everything else sits in a directory. */
  predicate WellFormed(n: Nodes)
  {
    && [] in n && n[[]].Dir?
    && forall p :: p in n && p != [] ==> Parent(p) in n && n[Parent(p)].Dir?
  }

  predicate IsDir(n: Nodes, p: Path)
  {
    p in n && n[p].Dir?
  }

  predicate IsFile(n: Nodes, p: Path)
  {
    p in n && n[p].File?
  }

  /** The entries directly inside d. */
  function Children(n: Nodes, d: Path): set<Path>
  {
    set p | p in n && |p| == |d| + 1 && p[..|d|] == d
  }

  /** Every entry strictly below root: what Path(root).rglob("*") walks over. */
  function Below(n: Nodes, root: Path): set<Path>
  {
    set p | p in n && StrictlyBelow(p, root)
  }

  /** The files strictly below root. */
  function FilesUnder(n: Nodes, root: Path): set<Path>
  {
    set p | p in n && StrictlyBelow(p, root) && n[p].File?
  }

  /** items lists the set s, each element once, in some order. */
  predicate IsListingOf(items: seq<Path>, s: set<Path>)
  {
    NoDups(items) && (forall p :: p in items ==> p in s) && (forall p :: p in s ==> p in items)
  }

  /** Path(p).mkdir(exist_ok=True): an existing directory is fine, an existing file raises,
      and the parent must already be a directory. None stands for the exception. */
  function MakeDir(n: Nodes, p: Path): Option<Nodes>
  {
    if p in n then (if n[p].Dir? then Some(n) else None)
    else if p != [] && IsDir(n, Parent(p)) then Some(n[p := Dir])
    else None
  }

  /** Path(p).mkdir(parents=True, exist_ok=True): missing ancestors are created first, from
      the top down; if some ancestor is a file the call raises before creating anything. */
  function MakeDirs(n: Nodes, p: Path): Option<Nodes>
    decreases |p|
  {
    if p in n then (if n[p].Dir? then Some(n) else None)
    else if p == [] then None
    else match MakeDirs(n, Parent(p))
      case None => None
      case Some(m) => Some(m[p := Dir])
  }

  /** A successful mkdir keeps every entry, adds only directories on the way to p, and
      leaves p a directory. */
  lemma {:induction false} MakeDirsEffect(n: Nodes, p: Path)
    requires WellFormed(n)
    requires MakeDirs(n, p).Some?
    ensures var m := MakeDirs(n, p).value;
      && WellFormed(m) && IsDir(m, p)
      && (forall q :: q in n ==> q in m && m[q] == n[q])
      && (forall q :: q in m && q !in n ==> m[q] == Dir && |q| <= |p| && p[..|q|] == q)
    decreases |p|
  {
    if p !in n {
      MakeDirsEffect(n, Parent(p));
      var m := MakeDirs(n, Parent(p)).value;
      var m' := m[p := Dir];
      forall q | q in m' && q != [] ensures Parent(q) in m' && m'[Parent(q)].Dir? {
        if q != p {
          assert Parent(q) in m && m[Parent(q)].Dir?;
        }
      }
    }
  }

  /** The mkdir call of an organizer: with or without parents=True. */
  function Mkdir(n: Nodes, p: Path, parents: bool): Option<Nodes>
  {
    if parents then MakeDirs(n, p) else MakeDir(n, p)
  }

  /** Either form of mkdir, when it succeeds, keeps every entry as it was, adds only
      directories, and leaves p a directory. */
  lemma MkdirEffect(n: Nodes, p: Path, parents: bool)
    requires WellFormed(n) && Mkdir(n, p, parents).Some?
    ensures var m := Mkdir(n, p, parents).value;
      && WellFormed(m) && IsDir(m, p)
      && (forall q :: q in n ==> q in m && m[q] == n[q])
      && (forall q :: q in m && q !in n ==> m[q] == Dir)
  {
    if parents {
      MakeDirsEffect(n, p);
    } else if p !in n {
      MakeDirWellFormed(n, p);
    }
  }

  /** mkdir fails exactly when p or one of its ancestors is a file. */
  lemma {:induction false} MakeDirsFails(n: Nodes, p: Path)
    requires WellFormed(n)
    ensures MakeDirs(n, p).None? <==> exists k :: 0 <= k <= |p| && IsFile(n, p[..k])
    decreases |p|
  {
    if p in n {
      if n[p].Dir? {
        forall k | 0 <= k <= |p| ensures !IsFile(n, p[..k]) {
          AncestorIsDir(n, p, k);
          if k == |p| {
            assert p[..k] == p;
          }
        }
      } else {
        assert p[..|p|] == p;
      }
    } else if p != [] {
      MakeDirsFails(n, Parent(p));
      if MakeDirs(n, Parent(p)).None? {
        var k :| 0 <= k <= |Parent(p)| && IsFile(n, Parent(p)[..k]);
        assert p[..k] == Parent(p)[..k];
      } else {
        forall k | 0 <= k <= |p| ensures !IsFile(n, p[..k]) {
          if k < |p| {
            assert p[..k] == Parent(p)[..k];
          } else {
            assert p[..k] == p;
          }
        }
      }
    }
  }

  /** Every proper ancestor of an entry is a directory. */
  lemma {:induction false} AncestorIsDir(n: Nodes, p: Path, k: nat)
    requires WellFormed(n) && p in n && k <= |p|
    ensures p[..k] in n
    ensures k < |p| ==> n[p[..k]].Dir?
    decreases |p| - k
  {
    if k < |p| {
      AncestorIsDir(n, Parent(p), k);
      assert Parent(p)[..k] == p[..k];
      if k == |p| - 1 {
        assert p[..k] == Parent(p);
      }
    } else {
      assert p[..k] == p;
    }
  }

  /** When shutil.move(src, dst) with dst absent succeeds: src is a file whose move does not
      fail for outside reasons, and the folder of dst is a directory. */
  predicate CanMove(n: Nodes, src: Path, dst: Path, fails: set<Path>)
  {
    IsFile(n, src) && src !in fails && dst !in n && dst != [] && IsDir(n, Parent(dst))
  }

  /** The filesystem after the file at src is renamed to dst. */
  function Moved(n: Nodes, src: Path, dst: Path): (m: Nodes)
    requires src in n
    ensures m.Keys == n.Keys - {src} + {dst}
    ensures m[dst] == n[src]
    ensures forall q :: q in n && q != src && q != dst ==> m[q] == n[q]
  {
    (n - {src})[dst := n[src]]
  }

  /** Every file of the filesystem, wherever it lies. */
  function FileEntries(n: Nodes): set<Path>
  {
    set p | p in n && n[p].File?
  }

  /** Renaming a file to a free place neither loses nor adds a file. */
  lemma MovedKeepsFileCount(n: Nodes, src: Path, dst: Path)
    requires IsFile(n, src) && dst !in n
    ensures |FileEntries(Moved(n, src, dst))| == |FileEntries(n)|
  {
    var rest := FileEntries(n) - {src};
    assert FileEntries(Moved(n, src, dst)) == rest + {dst};
    assert dst !in rest;
  }

  lemma MovedWellFormed(n: Nodes, src: Path, dst: Path, fails: set<Path>)
    requires WellFormed(n) && CanMove(n, src, dst, fails)
    ensures WellFormed(Moved(n, src, dst))
  {
    var m := Moved(n, src, dst);
    forall q | q in m && q != [] ensures Parent(q) in m && m[Parent(q)].Dir? {
      if q != dst {
        assert Parent(q) in n && n[Parent(q)].Dir?;
      }
    }
  }

  /** When Path(d).rmdir() succeeds: d is an empty directory below "/" whose removal does
      not fail for outside reasons. */
  predicate CanRemoveDir(n: Nodes, d: Path, fails: set<Path>)
  {
    IsDir(n, d) && d != [] && Children(n, d) == {} && d !in fails
  }

  lemma RemovedWellFormed(n: Nodes, d: Path, fails: set<Path>)
    requires WellFormed(n) && CanRemoveDir(n, d, fails)
    ensures WellFormed(n - {d})
  {
  }

  /** The directories at or below root: what os.walk(root) yields. */
  function DirsAtOrBelow(n: Nodes, root: Path): set<Path>
  {
    set p | p in n && n[p].Dir? && AtOrBelow(p, root)
  }

  /** topdown=False: no directory comes before one that lies below it. */
  predicate BottomUp(walk: seq<Path>)
  {
    forall i, j :: 0 <= i < j < |walk| ==> !StrictlyBelow(walk[j], walk[i])
  }

  predicate Deeper(a: Path, b: Path)
  {
    |a| >= |b|
  }

  lemma DeeperOrder()
    ensures TotalPreorder(Deeper)
  {
  }

  /** Lists a finite set in an order the caller cannot choose: the order in which the
      operating system returns directory entries. */
  method Enumerate(s: set<Path>) returns (items: seq<Path>)
    ensures IsListingOf(items, s)
  {
    var rest := s;
    items := [];
    while rest != {}
      invariant rest <= s
      invariant NoDups(items)
      invariant forall p :: p in items ==> p in s && p !in rest
      invariant forall p :: p in s ==> p in items || p in rest
      decreases |rest|
    {
      var p :| p in rest;
      items := items + [p];
      rest := rest - {p};
    }
  }

  class FileSystem {
    var nodes: Nodes

    predicate Valid()
      reads this
    {
      WellFormed(nodes)
    }

    constructor (initial: Nodes)
      requires WellFormed(initial)
      ensures Valid() && nodes == initial
    {
      nodes := initial;
    }

    /** Path(d).iterdir() on a directory. */
    method IterDir(d: Path) returns (items: seq<Path>)
      requires Valid() && IsDir(nodes, d)
      ensures IsListingOf(items, Children(nodes, d))
    {
      items := Enumerate(Children(nodes, d));
    }

    /** Path(root).rglob("*"): every entry below root, files and directories; nothing for a
        root that is a file. */
    method RGlob(root: Path) returns (items: seq<Path>)
      requires Valid()
      ensures IsListingOf(items, Below(nodes, root))
    {
      items := Enumerate(Below(nodes, root));
    }

    /** os.walk(root, topdown=False): every directory at or below root, each after the
        directories below it; the order among the rest is the operating system's. */
    method Walk(root: Path) returns (walk: seq<Path>)
      requires Valid()
      ensures IsListingOf(walk, DirsAtOrBelow(nodes, root)) && BottomUp(walk)
    {
      var dirs := Enumerate(DirsAtOrBelow(nodes, root));
      DeeperOrder();
      walk := SortBy(dirs, Deeper);
      SortByKeepsElements(dirs, Deeper);
      PermutationNoDups(dirs, walk);
    }

    /** Path(p).mkdir(parents=parents, exist_ok=True); false when it raises. */
    method MakeDirectory(p: Path, parents: bool) returns (ok: bool)
      requires Valid()
      modifies this
      ensures Valid()
      ensures ok == Mkdir(old(nodes), p, parents).Some?
      ensures nodes == if ok then Mkdir(old(nodes), p, parents).value else old(nodes)
    {
      var r := Mkdir(nodes, p, parents);
      if r.Some? {
        MkdirEffect(nodes, p, parents);
        nodes := r.value;
        ok := true;
      } else {
        ok := false;
      }
    }

    /** shutil.move(src, dst) for a destination the caller has checked is free; false when
        it raises, and a move that raises is taken to change nothing (the copy that
        shutil.move's copy-then-unlink fallback may leave behind is not modelled). */
    method Move(src: Path, dst: Path, fails: set<Path>) returns (ok: bool)
      requires Valid() && dst !in nodes
      modifies this
      ensures Valid()
      ensures ok == CanMove(old(nodes), src, dst, fails)
      ensures nodes == if ok then Moved(old(nodes), src, dst) else old(nodes)
    {
      ok := CanMove(nodes, src, dst, fails);
      if ok {
        MovedWellFormed(nodes, src, dst, fails);
        nodes := Moved(nodes, src, dst);
      }
    }

    /** Path(d).rmdir(); false when it raises. */
    method RemoveDir(d: Path, fails: set<Path>) returns (ok: bool)
      requires Valid()
      modifies this
      ensures Valid()
      ensures ok == CanRemoveDir(old(nodes), d, fails)
      ensures nodes == if ok then old(nodes) - {d} else old(nodes)
    {
      ok := CanRemoveDir(nodes, d, fails);
      if ok {
        RemovedWellFormed(nodes, d, fails);
        nodes := nodes - {d};
      }
    }
  }

  lemma MakeDirWellFormed(n: Nodes, p: Path)
    requires WellFormed(n) && p !in n && MakeDir(n, p).Some?
    ensures WellFormed(MakeDir(n, p).value)
  {
    var m := n[p := Dir];
    forall q | q in m && q != [] ensures Parent(q) in m && m[Parent(q)].Dir? {
      if q != p {
        assert Parent(q) in n && n[Parent(q)].Dir?;
      }
    }
  }

  /** Every finite set of paths can be listed. */
  lemma {:induction false} ListingExists(s: set<Path>)
    ensures exists items :: IsListingOf(items, s)
    decreases |s|
  {
    if s == {} {
      assert IsListingOf([], s);
    } else {
      var x :| x in s;
      ListingExists(s - {x});
      var rest :| IsListingOf(rest, s - {x});
      assert IsListingOf(rest + [x], s);
    }
  }

  /** Only directories have entries inside them. */
  lemma NothingInsideNonDirs(n: Nodes, d: Path)
    requires WellFormed(n) && !IsDir(n, d)
    ensures Children(n, d) == {}
  {
    forall p | p in n && |p| == |d| + 1 ensures p[..|d|] != d {
      assert Parent(p) == p[..|d|];
    }
  }
}
