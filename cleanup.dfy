/**
 * cleanup_empty_folders (support_bot/tools/desktop_tools.py:811-851): a bottom-up walk
 * over the directories at or below a folder removes each one that is empty when its turn
 * comes; a directory whose removal raises is passed over, and the folder itself is never
 * removed. What goes is exactly the set of hollow directories below the folder: those
 * holding nothing but directories, none of which refuses to be removed.
 */
module Cleanup {
  import opened Seqs
  import opened Wrappers
  import opened Paths
  import opened FileSystems

  datatype Report =
    | Failed                                // an exception reached the outer handler
    | NotFound(folder: string)              // the argument, as given
    | NoEmptyFolders
    | Removed(count: nat, shown: seq<Name>) // len(removed) and the names of the first ten

  /** The loop's state: the filesystem and the removed list so far. */
  datatype Sweep = Sweep(nodes: Nodes, removed: seq<Path>)

  /** The loop body on one directory of the walk. */
  function Visit(s: Sweep, root: Path, fails: set<Path>, d: Path): Sweep
  {
    if d != root && CanRemoveDir(s.nodes, d, fails) then Sweep(s.nodes - {d}, s.removed + [d]) else s
  }

  /** The loop over a walk: it only removes directories of the walk, each at most once,
      and changes nothing else. */
  function SweepAll(n: Nodes, root: Path, fails: set<Path>, walk: seq<Path>): (r: Sweep)
    ensures forall q :: q in r.nodes <==> q in n && q !in r.removed
    ensures forall q :: q in r.nodes ==> r.nodes[q] == n[q]
    ensures forall d :: d in r.removed ==> d in walk && d != root && IsDir(n, d)
    ensures NoDups(r.removed)
    decreases |walk|
  {
    if walk == [] then Sweep(n, [])
    else Visit(SweepAll(n, root, fails, walk[..|walk| - 1]), root, fails, walk[|walk| - 1])
  }

  lemma SweepStep(n: Nodes, root: Path, fails: set<Path>, walk: seq<Path>, i: nat)
    requires i < |walk|
    ensures SweepAll(n, root, fails, walk[..i + 1]) == Visit(SweepAll(n, root, fails, walk[..i]), root, fails, walk[i])
  {
    assert walk[..i + 1][..i] == walk[..i];
  }

  /** A walk that removes nothing leaves the filesystem as it was. */
  lemma SweepNothing(n: Nodes, root: Path, fails: set<Path>, walk: seq<Path>)
    ensures SweepAll(n, root, fails, walk).removed == [] ==> SweepAll(n, root, fails, walk).nodes == n
  {
    var r := SweepAll(n, root, fails, walk);
    if r.removed == [] {
      assert r.nodes.Keys == n.Keys;
    }
  }

  /** The directories os.walk yields for the argument: none when it does not resolve. */
  function Walked(n: Nodes, input: string, env: Env): set<Path>
  {
    match ResolveFolder(input, env)
    case None => {}
    case Some(p) => DirsAtOrBelow(n, Location(p, env))
  }

  /** cleanup_empty_folders, given the order of the walk: the report and the filesystem
      afterwards. A folder argument naming a file is walked over nothing. */
  function Clean(n: Nodes, env: Env, fails: set<Path>, source: string, walk: seq<Path>): (result: (Report, Nodes))
    ensures !result.0.Removed? ==> result.1 == n
    ensures result.0.Removed? ==> result.0.count > 0 && |result.0.shown| <= 10
    ensures result.0.NotFound? <==>
              ResolveFolder(source, env).Some? && Location(ResolveFolder(source, env).value, env) !in n
  {
    match ResolveFolder(source, env)
    case None => (Failed, n)
    case Some(p) =>
      var root := Location(p, env);
      if root !in n then (NotFound(source), n)
      else
        var s := SweepAll(n, root, fails, walk);
        SweepNothing(n, root, fails, walk);
        (if s.removed == [] then NoEmptyFolders else Removed(|s.removed|, NamesOf(Take(s.removed, 10))), s.nodes)
  }

  /** Nothing lies at or below a location that is not there. */
  lemma NothingBelowAbsent(n: Nodes, root: Path)
    requires WellFormed(n) && root !in n
    ensures DirsAtOrBelow(n, root) == {}
  {
    forall q | q in n && AtOrBelow(q, root) ensures false {
      AncestorIsDir(n, q, |root|);
    }
  }

  /** The try block on one directory: it is removed when it has no entries; false when it
      stays, because it has entries, is gone, or refuses removal. */
  method TryRemoveEmpty(fs: FileSystem, d: Path, fails: set<Path>) returns (gone: bool)
    requires fs.Valid()
    modifies fs
    ensures fs.Valid()
    ensures gone == CanRemoveDir(old(fs.nodes), d, fails)
    ensures fs.nodes == if gone then old(fs.nodes) - {d} else old(fs.nodes)
  {
    gone := false;
    if IsDir(fs.nodes, d) {
      var entries := fs.IterDir(d);
      if entries == [] {
        gone := fs.RemoveDir(d, fails);
      } else {
        assert entries[0] in Children(fs.nodes, d);
      }
    }
  }

  /** The loop over the walk. */
  method SweepWalk(fs: FileSystem, root: Path, fails: set<Path>, walk: seq<Path>) returns (removed: seq<Path>)
    requires fs.Valid()
    modifies fs
    ensures fs.Valid()
    ensures Sweep(fs.nodes, removed) == SweepAll(old(fs.nodes), root, fails, walk)
  {
    removed := [];
    var i := 0;
    while i < |walk|
      invariant 0 <= i <= |walk|
      invariant fs.Valid()
      invariant SweepAll(old(fs.nodes), root, fails, walk[..i]) == Sweep(fs.nodes, removed)
    {
      var d := walk[i];
      SweepStep(old(fs.nodes), root, fails, walk, i);
      if d != root {
        var gone := TryRemoveEmpty(fs, d, fails);
        if gone {
          removed := removed + [d];
        }
      }
      i := i + 1;
    }
    assert walk[..|walk|] == walk;
  }

  method CleanupEmptyFolders(fs: FileSystem, env: Env, fails: set<Path>, source: string) returns (report: Report)
    requires fs.Valid()
    modifies fs
    ensures fs.Valid()
    ensures exists walk :: IsListingOf(walk, Walked(old(fs.nodes), source, env)) && BottomUp(walk)
                           && Clean(old(fs.nodes), env, fails, source, walk) == (report, fs.nodes)
  {
    var resolved := ResolveFolder(source, env);
    if resolved.None? {
      report := Failed;
      assert IsListingOf([], Walked(fs.nodes, source, env));
      return;
    }
    var root := Location(resolved.value, env);
    if root !in fs.nodes {
      report := NotFound(source);
      NothingBelowAbsent(fs.nodes, root);
      assert IsListingOf([], Walked(fs.nodes, source, env));
      return;
    }
    var walk := fs.Walk(root);
    var removed := SweepWalk(fs, root, fails, walk);
    if removed == [] {
      report := NoEmptyFolders;
    } else {
      report := Removed(|removed|, NamesOf(Take(removed, 10)));
    }
    assert Clean(old(fs.nodes), env, fails, source, walk) == (report, fs.nodes);
  }

  /** A hollow directory: it and everything below it are directories whose removal does
      not fail for outside reasons. A file anywhere below keeps it. */
  predicate Hollow(n: Nodes, fails: set<Path>, d: Path)
  {
    d in n && forall q :: q in n && AtOrBelow(q, d) ==> n[q].Dir? && q !in fails
  }

  /** The hollow directories strictly below root. */
  function HollowBelow(n: Nodes, fails: set<Path>, root: Path): set<Path>
  {
    set d | d in n && StrictlyBelow(d, root) && Hollow(n, fails, d)
  }

  /** A directory is hollow exactly when it may be removed and all its children are
      hollow. */
  lemma HollowUnfold(n: Nodes, fails: set<Path>, d: Path)
    requires WellFormed(n) && d in n
    ensures Hollow(n, fails, d) <==>
              n[d].Dir? && d !in fails && forall c :: c in Children(n, d) ==> Hollow(n, fails, c)
  {
    if n[d].Dir? && d !in fails && forall c :: c in Children(n, d) ==> Hollow(n, fails, c) {
      forall q | q in n && AtOrBelow(q, d) ensures n[q].Dir? && q !in fails {
        if q != d {
          var c := q[..|d| + 1];
          AncestorIsDir(n, q, |d| + 1);
          assert c[..|d|] == d;
          assert c in Children(n, d);
          assert AtOrBelow(q, c);
        }
      }
    }
    if Hollow(n, fails, d) {
      forall c | c in Children(n, d) ensures Hollow(n, fails, c) {
        forall q | q in n && AtOrBelow(q, c) ensures AtOrBelow(q, d) {
          assert q[..|d|] == q[..|c|][..|d|];
        }
      }
    }
  }

  /** In a bottom-up walk a child directory comes before its parent. */
  lemma ChildComesEarlier(n: Nodes, root: Path, walk: seq<Path>, k: nat, c: Path)
    requires IsListingOf(walk, DirsAtOrBelow(n, root)) && BottomUp(walk)
    requires k < |walk| && c in Children(n, walk[k]) && n[c].Dir?
    ensures c in walk[..k]
  {
    var d := walk[k];
    assert d in DirsAtOrBelow(n, root);
    assert c[..|root|] == c[..|d|][..|root|];
    assert c in DirsAtOrBelow(n, root);
    var j :| 0 <= j < |walk| && walk[j] == c;
    assert StrictlyBelow(walk[j], walk[k]);
    assert walk[..k][j] == c;
  }

  /** A directory is empty after removals exactly when each of its children was removed. */
  lemma EmptyOnceChildrenGone(n: Nodes, m: Nodes, d: Path, removed: seq<Path>)
    requires forall q :: q in m <==> q in n && q !in removed
    ensures Children(m, d) == {} <==> forall c :: c in Children(n, d) ==> c in removed
  {
    forall c | c in Children(n, d) && c !in removed ensures c in Children(m, d) {
    }
  }

  /** When the walk reaches a directory below the root, the directory is empty and
      removable exactly when it is hollow: its children came earlier in the walk, and
      those that are hollow are gone. */
  lemma RemovableIffHollow(n: Nodes, root: Path, fails: set<Path>, walk: seq<Path>, k: nat)
    requires WellFormed(n) && IsListingOf(walk, DirsAtOrBelow(n, root)) && BottomUp(walk)
    requires k < |walk| && walk[k] != root
    requires forall x :: x in SweepAll(n, root, fails, walk[..k]).removed <==>
                         x in walk[..k] && x != root && Hollow(n, fails, x)
    ensures CanRemoveDir(SweepAll(n, root, fails, walk[..k]).nodes, walk[k], fails) <==> Hollow(n, fails, walk[k])
  {
    var s := SweepAll(n, root, fails, walk[..k]);
    var d := walk[k];
    assert d in DirsAtOrBelow(n, root);
    assert d !in walk[..k];
    assert d in s.nodes && s.nodes[d] == Dir && d != [];
    HollowUnfold(n, fails, d);
    forall c | c in Children(n, d) ensures c in s.removed <==> Hollow(n, fails, c) {
      if Hollow(n, fails, c) {
        assert AtOrBelow(c, c);
        ChildComesEarlier(n, root, walk, k, c);
      }
    }
    EmptyOnceChildrenGone(n, s.nodes, d, s.removed);
  }

  /** After any prefix of a bottom-up walk, the removed list holds exactly the hollow
      directories of the prefix other than the root. */
  lemma {:induction false} SweepHollow(n: Nodes, root: Path, fails: set<Path>, walk: seq<Path>, i: nat)
    requires WellFormed(n) && IsListingOf(walk, DirsAtOrBelow(n, root)) && BottomUp(walk) && i <= |walk|
    ensures forall x :: x in SweepAll(n, root, fails, walk[..i]).removed <==>
                        x in walk[..i] && x != root && Hollow(n, fails, x)
  {
    if i == 0 {
      assert walk[..0] == [];
    } else {
      SweepHollow(n, root, fails, walk, i - 1);
      SweepStep(n, root, fails, walk, i - 1);
      var d := walk[i - 1];
      assert walk[..i] == walk[..i - 1] + [d];
      if d != root {
        RemovableIffHollow(n, root, fails, walk, i - 1);
      }
    }
  }

  /** Cleaning removes exactly the hollow directories strictly below the folder and
      changes nothing else; it reports how many went, and "no empty folders" exactly
      when there was none. */
  lemma CleanRemovesHollow(n: Nodes, env: Env, fails: set<Path>, source: string, walk: seq<Path>)
    requires WellFormed(n) && IsListingOf(walk, Walked(n, source, env)) && BottomUp(walk)
    requires ResolveFolder(source, env).Some?
    ensures var (r, m) := Clean(n, env, fails, source, walk);
      var root := Location(ResolveFolder(source, env).value, env);
      && (forall q :: q in m <==> q in n && q !in HollowBelow(n, fails, root))
      && (forall q :: q in m ==> m[q] == n[q])
      && (r.NoEmptyFolders? <==> root in n && HollowBelow(n, fails, root) == {})
      && (r.Removed? ==> r.count == |HollowBelow(n, fails, root)|)
  {
    var root := Location(ResolveFolder(source, env).value, env);
    if root !in n {
      forall d | d in HollowBelow(n, fails, root) ensures d in DirsAtOrBelow(n, root) {
        assert AtOrBelow(d, d);
      }
      NothingBelowAbsent(n, root);
    } else {
      var s := SweepAll(n, root, fails, walk);
      SweepHollow(n, root, fails, walk, |walk|);
      assert walk[..|walk|] == walk;
      forall d ensures d in s.removed <==> d in HollowBelow(n, fails, root) {
        if d in HollowBelow(n, fails, root) {
          assert AtOrBelow(d, d);
          assert d in DirsAtOrBelow(n, root);
        }
      }
      assert (set d | d in s.removed) == HollowBelow(n, fails, root);
      NoDupsCardinality(s.removed);
    }
  }

  /** Files, the folder itself and everything outside it are kept as they were. */
  lemma CleanKeepsFiles(n: Nodes, env: Env, fails: set<Path>, source: string, walk: seq<Path>)
    requires WellFormed(n) && IsListingOf(walk, Walked(n, source, env)) && BottomUp(walk)
    requires ResolveFolder(source, env).Some?
    ensures var (r, m) := Clean(n, env, fails, source, walk);
      var root := Location(ResolveFolder(source, env).value, env);
      forall q :: q in n && (n[q].File? || !StrictlyBelow(q, root)) ==> q in m && m[q] == n[q]
  {
    CleanRemovesHollow(n, env, fails, source, walk);
    var root := Location(ResolveFolder(source, env).value, env);
    forall q | q in n && n[q].File? ensures !Hollow(n, fails, q) {
      assert AtOrBelow(q, q);
    }
  }

  /** What goes does not depend on the order of the walk; only the order of the names
      shown can. */
  lemma CleanOrderIndependent(n: Nodes, env: Env, fails: set<Path>, source: string, walk1: seq<Path>, walk2: seq<Path>)
    requires WellFormed(n)
    requires IsListingOf(walk1, Walked(n, source, env)) && BottomUp(walk1)
    requires IsListingOf(walk2, Walked(n, source, env)) && BottomUp(walk2)
    ensures var (r1, m1) := Clean(n, env, fails, source, walk1);
      var (r2, m2) := Clean(n, env, fails, source, walk2);
      && m1 == m2
      && (r1.Removed? ==> r2.Removed? && r1.count == r2.count)
      && (!r1.Removed? ==> r1 == r2)
  {
    if ResolveFolder(source, env).Some? {
      CleanRemovesHollow(n, env, fails, source, walk1);
      CleanRemovesHollow(n, env, fails, source, walk2);
      var root := Location(ResolveFolder(source, env).value, env);
      SameKeptSame(n, HollowBelow(n, fails, root), Clean(n, env, fails, source, walk1).1, Clean(n, env, fails, source, walk2).1);
    }
  }

  /** Two filesystems that keep the same entries of n, unchanged, are the same. */
  lemma SameKeptSame(n: Nodes, gone: set<Path>, m1: Nodes, m2: Nodes)
    requires forall q :: q in m1 <==> q in n && q !in gone
    requires forall q :: q in m2 <==> q in n && q !in gone
    requires forall q :: q in m1 ==> m1[q] == n[q]
    requires forall q :: q in m2 ==> m2[q] == n[q]
    ensures m1 == m2
  {
    assert m1.Keys == m2.Keys;
  }

  /** What a cleaning leaves is well formed: a kept entry's parent is kept. */
  lemma CleanedWellFormed(n: Nodes, fails: set<Path>, root: Path, m: Nodes)
    requires WellFormed(n)
    requires forall q :: q in m <==> q in n && q !in HollowBelow(n, fails, root)
    requires forall q :: q in m ==> m[q] == n[q]
    ensures WellFormed(m)
  {
    forall q | q in m && q != [] ensures Parent(q) in m && m[Parent(q)].Dir? {
      var p := Parent(q);
      assert AtOrBelow(q, p);
      if StrictlyBelow(p, root) {
        assert q[..|root|] == q[..|p|][..|root|];
      }
      assert Hollow(n, fails, p) ==> Hollow(n, fails, q) by {
        forall x | x in n && AtOrBelow(x, q) ensures AtOrBelow(x, p) {
          assert x[..|p|] == x[..|q|][..|p|];
        }
      }
    }
  }

  /** Once cleaned, a folder has no hollow directory left below it. */
  lemma NoHollowLeft(n: Nodes, fails: set<Path>, root: Path, m: Nodes)
    requires forall q :: q in m <==> q in n && q !in HollowBelow(n, fails, root)
    requires forall q :: q in m ==> m[q] == n[q]
    ensures HollowBelow(m, fails, root) == {}
  {
    forall d | d in m && StrictlyBelow(d, root) ensures !Hollow(m, fails, d) {
      assert !Hollow(n, fails, d);
      var q :| q in n && AtOrBelow(q, d) && !(n[q].Dir? && q !in fails);
      assert AtOrBelow(q, q);
      assert q !in HollowBelow(n, fails, root);
    }
  }

  /** Cleaning a folder a second time, with the same directories refusing removal, finds
      nothing to remove. */
  lemma CleanIdempotent(n: Nodes, env: Env, fails: set<Path>, source: string, walk: seq<Path>, walk2: seq<Path>)
    requires WellFormed(n) && IsListingOf(walk, Walked(n, source, env)) && BottomUp(walk)
    requires Clean(n, env, fails, source, walk).0.Removed? || Clean(n, env, fails, source, walk).0.NoEmptyFolders?
    requires IsListingOf(walk2, Walked(Clean(n, env, fails, source, walk).1, source, env)) && BottomUp(walk2)
    ensures var m := Clean(n, env, fails, source, walk).1;
      Clean(m, env, fails, source, walk2) == (NoEmptyFolders, m)
  {
    var root := Location(ResolveFolder(source, env).value, env);
    var m := Clean(n, env, fails, source, walk).1;
    CleanRemovesHollow(n, env, fails, source, walk);
    CleanedWellFormed(n, fails, root, m);
    NoHollowLeft(n, fails, root, m);
    CleanRemovesHollow(m, env, fails, source, walk2);
    var m2 := Clean(m, env, fails, source, walk2).1;
    assert m2.Keys == m.Keys;
  }
}
