/**
 * The execution half shared by organize_files and organize_by_date
 * (support_bot/tools/desktop_tools.py:679-708 and 785-801): for each bucket of the plan,
 * create its folder, then move each file into it under a name that is free there, trying
 * the file's own name and then stem_1 + suffix, stem_2 + suffix, ...; a move that raises
 * is caught and the loop goes on, a mkdir that raises ends the whole call.
 */
module Relocation {
  import opened Paths
  import opened Seqs
  import opened Wrappers
  import opened FileSystems

  /** Every "_j" name before the k-th is already present in the folder. */
  predicate TakenBefore(n: Nodes, folder: Path, name: Name, k: nat)
  {
    forall j :: 1 <= j < k ==> folder + [CollisionName(name, j)] in n
  }

  /** The locations of the first k - 1 collision names. */
  function Tried(folder: Path, name: Name, k: nat): set<Path>
  {
    set j | 1 <= j < k :: folder + [CollisionName(name, j)]
  }

  lemma {:induction false} TriedSize(folder: Path, name: Name, k: nat)
    requires k >= 1
    ensures |Tried(folder, name, k)| == k - 1
  {
    if k > 1 {
      TriedSize(folder, name, k - 1);
      var last := folder + [CollisionName(name, k - 1)];
      assert Tried(folder, name, k) == Tried(folder, name, k - 1) + {last};
      forall j | 1 <= j < k - 1 ensures folder + [CollisionName(name, j)] != last {
        CollisionNameFresh(name, j, k - 1);
        AppendInjective(folder, CollisionName(name, j), CollisionName(name, k - 1));
      }
    } else {
      assert Tried(folder, name, k) == {};
    }
  }

  lemma AppendInjective(folder: Path, a: Name, b: Name)
    ensures folder + [a] == folder + [b] ==> a == b
  {
    if folder + [a] == folder + [b] {
      assert (folder + [a])[|folder|] == a;
    }
  }

  /** A folder holds finitely many entries, so the collision loop stops: at most |n| of
      the names it tries can be taken. */
  lemma TakenBound(n: Nodes, folder: Path, name: Name, k: nat)
    requires k >= 1 && TakenBefore(n, folder, name, k)
    ensures k <= |n.Keys| + 1
  {
    TriedSize(folder, name, k);
    assert Tried(folder, name, k) <= n.Keys;
    SubsetSize(Tried(folder, name, k), n.Keys);
  }

  lemma SubsetSize(a: set<Path>, b: set<Path>)
    requires a <= b
    ensures |a| <= |b|
  {
    assert b == a + (b - a);
  }

  /** The first free collision counter from k on. */
  function FirstFree(n: Nodes, folder: Path, name: Name, k: nat): (r: nat)
    requires k >= 1 && TakenBefore(n, folder, name, k)
    ensures r >= k && folder + [CollisionName(name, r)] !in n && TakenBefore(n, folder, name, r)
    decreases |n.Keys| + 1 - k
  {
    TakenBound(n, folder, name, k);
    if folder + [CollisionName(name, k)] !in n then k
    else
      TakenBound(n, folder, name, k + 1);
      FirstFree(n, folder, name, k + 1)
  }

  /** A free counter with every smaller one taken is the one FirstFree finds. */
  lemma {:induction false} FirstFreeIsLeast(n: Nodes, folder: Path, name: Name, start: nat, k: nat)
    requires 1 <= start <= k && TakenBefore(n, folder, name, k)
    requires folder + [CollisionName(name, k)] !in n
    ensures FirstFree(n, folder, name, start) == k
    decreases k - start
  {
    if start < k {
      FirstFreeIsLeast(n, folder, name, start + 1, k);
    }
  }

  /** The name a file arrives under in folder: its own name when nothing there has it,
      otherwise stem_k + suffix for the smallest k >= 1 not present. */
  function FreeName(n: Nodes, folder: Path, name: Name): (r: Name)
    ensures folder + [r] !in n
    ensures r == name <==> folder + [name] !in n
    ensures r != name ==> exists k :: k >= 1 && r == CollisionName(name, k) && TakenBefore(n, folder, name, k)
  {
    if folder + [name] !in n then name
    else
      var k := FirstFree(n, folder, name, 1);
      CollisionNameFresh(name, k, k);
      CollisionName(name, k)
  }

  /** The renaming loop: the file's own name in the folder if that is free, otherwise the
      first collision name, counting from 1, that is free. */
  method FreeTarget(fs: FileSystem, folder: Path, name: Name) returns (dest: Path)
    requires fs.Valid()
    ensures dest == folder + [FreeName(fs.nodes, folder, name)]
    ensures dest !in fs.nodes && Parent(dest) == folder
  {
    dest := folder + [name];
    if dest in fs.nodes {
      var counter: nat := 1;
      while dest in fs.nodes
        invariant counter >= 1
        invariant dest == folder + [if counter == 1 then name else CollisionName(name, counter - 1)]
        invariant folder + [name] in fs.nodes
        invariant TakenBefore(fs.nodes, folder, name, counter - 1)
        decreases |fs.nodes.Keys| + 1 - counter
      {
        assert TakenBefore(fs.nodes, folder, name, counter);
        TakenBound(fs.nodes, folder, name, counter);
        dest := folder + [CollisionName(name, counter)];
        counter := counter + 1;
      }
      FirstFreeIsLeast(fs.nodes, folder, name, 1, counter - 1);
    }
  }

  /** What happened to one file: where it was, where it was sent, and whether the move went
      through. */
  datatype MoveResult = MoveResult(source: Path, target: Path, moved: bool)

  /** One pass of the per-file loop. */
  function MoveOne(n: Nodes, folder: Path, src: Path, fails: set<Path>): (Nodes, MoveResult)
  {
    var target := folder + [FreeName(n, folder, PathName(src))];
    if CanMove(n, src, target, fails) then (Moved(n, src, target), MoveResult(src, target, true))
    else (n, MoveResult(src, target, false))
  }

  /** The per-file loop over one bucket. */
  function MoveAll(n: Nodes, folder: Path, files: seq<Path>, fails: set<Path>): (Nodes, seq<MoveResult>)
    decreases |files|
  {
    if files == [] then (n, [])
    else
      var (n1, r) := MoveOne(n, folder, files[0], fails);
      var (n2, rs) := MoveAll(n1, folder, files[1..], fails);
      (n2, [r] + rs)
  }

  /** One bucket of a plan: its key, the folder (a location) its files go to, and the files. */
  datatype Bucket = Bucket(key: string, folder: Path, files: seq<Path>)

  /** The state an execution leaves: the results of each bucket it reached, whether it got
      through all of them (a mkdir that raises stops it), and the filesystem. */
  datatype Run = Run(results: seq<seq<MoveResult>>, completed: bool, nodes: Nodes)

  /** The per-bucket loop. */
  function RunBuckets(n: Nodes, buckets: seq<Bucket>, parents: bool, fails: set<Path>): Run
    decreases |buckets|
  {
    if buckets == [] then Run([], true, n)
    else
      var b := buckets[0];
      match Mkdir(n, b.folder, parents)
      case None => Run([], false, n)
      case Some(n1) =>
        var (n2, rs) := MoveAll(n1, b.folder, b.files, fails);
        var rest := RunBuckets(n2, buckets[1..], parents, fails);
        Run([rs] + rest.results, rest.completed, rest.nodes)
  }

  /** Moved files, as moved_count / total_moved count them. */
  function CountMoved(rs: seq<MoveResult>): nat
  {
    if rs == [] then 0 else (if rs[0].moved then 1 else 0) + CountMoved(rs[1..])
  }

  /** The files whose move raised, in order (the skipped list). */
  function Failures(rs: seq<MoveResult>): (r: seq<Path>)
    ensures forall p :: p in r <==> exists i :: 0 <= i < |rs| && !rs[i].moved && rs[i].source == p
  {
    if rs == [] then []
    else
      var rest := Failures(rs[1..]);
      assert forall i :: 1 <= i < |rs| ==> rs[i] == rs[1..][i - 1];
      (if rs[0].moved then [] else [rs[0].source]) + rest
  }

  /** Every file is counted once: as moved or as skipped. */
  lemma {:induction false} MovedPlusSkipped(rs: seq<MoveResult>)
    ensures CountMoved(rs) + |Failures(rs)| == |rs|
  {
    if rs != [] {
      MovedPlusSkipped(rs[1..]);
    }
  }

  function Flatten(rss: seq<seq<MoveResult>>): seq<MoveResult>
  {
    if rss == [] then [] else rss[0] + Flatten(rss[1..])
  }

  /** Where the moves that went through put their files. */
  function Targets(rs: seq<MoveResult>): set<Path>
  {
    if rs == [] then {} else (if rs[0].moved then {rs[0].target} else {}) + Targets(rs[1..])
  }

  /** The files that moves took away. */
  function MovedSources(rs: seq<MoveResult>): set<Path>
  {
    if rs == [] then {} else (if rs[0].moved then {rs[0].source} else {}) + MovedSources(rs[1..])
  }

  lemma {:induction false} TargetsAndSourcesAppend(a: seq<MoveResult>, b: seq<MoveResult>)
    ensures Targets(a + b) == Targets(a) + Targets(b)
    ensures MovedSources(a + b) == MovedSources(a) + MovedSources(b)
  {
    if a != [] {
      assert (a + b)[1..] == a[1..] + b;
      TargetsAndSourcesAppend(a[1..], b);
    } else {
      assert a + b == b;
    }
  }

  /** The name a file is given is its own or one of its collision names. */
  ghost predicate IsRenaming(name: Name, given: Name)
  {
    given == name || exists k :: k >= 1 && given == CollisionName(name, k)
  }

  /** One move: the file goes to a free place in the folder under its own name or a
      collision name, and the filesystem changes only if the move went through. */
  lemma MoveOneFacts(n: Nodes, folder: Path, src: Path, fails: set<Path>)
    ensures var (m, r) := MoveOne(n, folder, src, fails);
      && r.source == src && r.target !in n && r.target == folder + [PathName(r.target)]
      && IsRenaming(PathName(src), PathName(r.target))
      && r.moved == CanMove(n, src, r.target, fails)
      && m == if r.moved then Moved(n, src, r.target) else n
  {
    var name := PathName(src);
    var given := FreeName(n, folder, name);
    assert PathName(folder + [given]) == given;
  }

  /** rs holds one result per file, in order, each sending the file into folder under its
      own name or a collision name. */
  ghost predicate Sends(folder: Path, files: seq<Path>, rs: seq<MoveResult>)
  {
    && |rs| == |files|
    && forall i :: 0 <= i < |rs| ==>
         && rs[i].source == files[i] && rs[i].target == folder + [PathName(rs[i].target)]
         && IsRenaming(PathName(files[i]), PathName(rs[i].target))
  }

  /** Each file of the bucket has one result, in order, sending it into the folder under
      its own name or a collision name. */
  lemma {:induction false} MoveAllShape(n: Nodes, folder: Path, files: seq<Path>, fails: set<Path>)
    ensures Sends(folder, files, MoveAll(n, folder, files, fails).1)
    decreases |files|
  {
    if files != [] {
      var (n1, r) := MoveOne(n, folder, files[0], fails);
      MoveOneFacts(n, folder, files[0], fails);
      MoveAllShape(n1, folder, files[1..], fails);
    }
  }

  /** Nothing is overwritten: every entry that was not moved away is still there, as it was. */
  lemma {:induction false} MoveAllKeeps(n: Nodes, folder: Path, files: seq<Path>, fails: set<Path>)
    ensures var (m, rs) := MoveAll(n, folder, files, fails);
      forall q :: q in n && q !in MovedSources(rs) ==> q in m && m[q] == n[q]
    decreases |files|
  {
    if files != [] {
      var (n1, r) := MoveOne(n, folder, files[0], fails);
      MoveOneFacts(n, folder, files[0], fails);
      MoveAllKeeps(n1, folder, files[1..], fails);
      var (m, rs) := MoveAll(n1, folder, files[1..], fails);
      assert MoveAll(n, folder, files, fails) == (m, [r] + rs);
      assert ([r] + rs)[1..] == rs;
    }
  }

  /** Nothing else appears: every entry afterwards is a moved file's new place or an entry
      that was there before, not moved away and unchanged. */
  lemma {:induction false} MoveAllOnlyTargets(n: Nodes, folder: Path, files: seq<Path>, fails: set<Path>)
    ensures var (m, rs) := MoveAll(n, folder, files, fails);
      forall q :: q in m ==> q in Targets(rs) || (q in n && q !in MovedSources(rs) && m[q] == n[q])
    decreases |files|
  {
    if files != [] {
      var (n1, r) := MoveOne(n, folder, files[0], fails);
      MoveOneFacts(n, folder, files[0], fails);
      MoveAllOnlyTargets(n1, folder, files[1..], fails);
      var (m, rs) := MoveAll(n1, folder, files[1..], fails);
      assert MoveAll(n, folder, files, fails) == (m, [r] + rs);
      assert ([r] + rs)[1..] == rs;
    }
  }

  /** Every move of rs that went through took an entry of n and left it, unchanged, at its
      target in m. */
  ghost predicate Arrives(n: Nodes, m: Nodes, rs: seq<MoveResult>)
  {
    forall i :: 0 <= i < |rs| && rs[i].moved ==>
      rs[i].source in n && rs[i].target in m && m[rs[i].target] == n[rs[i].source]
  }

  /** Every move that went through leaves the file it moved at its new place, untouched by
      the later moves, provided the bucket lists present entries, each once. */
  lemma {:induction false} MoveAllArrives(n: Nodes, folder: Path, files: seq<Path>, fails: set<Path>)
    requires NoDups(files) && forall f :: f in files ==> f in n
    ensures var (m, rs) := MoveAll(n, folder, files, fails);
      Arrives(n, m, rs)
    decreases |files|
  {
    if files != [] {
      var (n1, r) := MoveOne(n, folder, files[0], fails);
      MoveOneFacts(n, folder, files[0], fails);
      var tail := files[1..];
      assert forall f :: f in tail ==> f in n && f in n1 && n1[f] == n[f] by {
        forall f | f in tail ensures f in n && f in n1 && n1[f] == n[f] {
          var j :| 0 <= j < |tail| && tail[j] == f;
          assert files[j + 1] == f && files[0] != f;
        }
      }
      MoveAllArrives(n1, folder, tail, fails);
      var (m, rs) := MoveAll(n1, folder, tail, fails);
      assert MoveAll(n, folder, files, fails) == (m, [r] + rs);
      assert forall i :: 0 <= i < |rs| ==> rs[i].source in tail by {
        MoveAllShape(n1, folder, tail, fails);
      }
      assert r.moved ==> r.source in n && r.target in m && m[r.target] == n[r.source] by {
        if r.moved {
          MoveAllKeeps(n1, folder, tail, fails);
          MovedSourceIsSource(rs, r.target);
        }
      }
      ArrivesCons(n, n1, m, r, rs);
    }
  }

  /** One more move in front of moves that arrived keeps them arrived, judged from the
      state before it, when it left their sources alone. */
  lemma ArrivesCons(n: Nodes, n1: Nodes, m: Nodes, r: MoveResult, rs: seq<MoveResult>)
    requires Arrives(n1, m, rs)
    requires forall i :: 0 <= i < |rs| && rs[i].moved ==> rs[i].source in n && n1[rs[i].source] == n[rs[i].source]
    requires r.moved ==> r.source in n && r.target in m && m[r.target] == n[r.source]
    ensures Arrives(n, m, [r] + rs)
  {
    forall i | 0 <= i < |rs| + 1 && ([r] + rs)[i].moved
      ensures ([r] + rs)[i].source in n && ([r] + rs)[i].target in m
      ensures m[([r] + rs)[i].target] == n[([r] + rs)[i].source]
    {
      if i > 0 {
        assert ([r] + rs)[i] == rs[i - 1];
      }
    }
  }

  lemma {:induction false} MovedSourceIsSource(rs: seq<MoveResult>, p: Path)
    ensures p in MovedSources(rs) ==> exists j :: 0 <= j < |rs| && rs[j].source == p && rs[j].moved
    ensures p in Targets(rs) ==> exists j :: 0 <= j < |rs| && rs[j].target == p && rs[j].moved
  {
    if rs != [] {
      MovedSourceIsSource(rs[1..], p);
      if p in MovedSources(rs[1..]) {
        var j :| 0 <= j < |rs[1..]| && rs[1..][j].source == p && rs[1..][j].moved;
        assert rs[j + 1] == rs[1..][j];
      }
      if p in Targets(rs[1..]) {
        var j :| 0 <= j < |rs[1..]| && rs[1..][j].target == p && rs[1..][j].moved;
        assert rs[j + 1] == rs[1..][j];
      }
    }
  }

  /** Each bucket the run reached has one result per file, in order, each sending the file
      into the bucket's folder under its own name or a collision name; a run that completed
      reached every bucket. */
  lemma {:induction false} RunShape(n: Nodes, buckets: seq<Bucket>, parents: bool, fails: set<Path>)
    ensures var run := RunBuckets(n, buckets, parents, fails);
      && |run.results| <= |buckets|
      && (run.completed ==> |run.results| == |buckets|)
      && forall i :: 0 <= i < |run.results| ==> Sends(buckets[i].folder, buckets[i].files, run.results[i])
    decreases |buckets|
  {
    if buckets != [] {
      var b := buckets[0];
      if Mkdir(n, b.folder, parents).Some? {
        var n1 := Mkdir(n, b.folder, parents).value;
        var (n2, rs) := MoveAll(n1, b.folder, b.files, fails);
        MoveAllShape(n1, b.folder, b.files, fails);
        RunShape(n2, buckets[1..], parents, fails);
        var rest := RunBuckets(n2, buckets[1..], parents, fails);
        var results := [rs] + rest.results;
        assert RunBuckets(n, buckets, parents, fails) == Run(results, rest.completed, rest.nodes);
        forall i | 0 <= i < |results| ensures Sends(buckets[i].folder, buckets[i].files, results[i]) {
          if i > 0 {
            assert results[i] == rest.results[i - 1] && buckets[i] == buckets[1..][i - 1];
          }
        }
      }
    }
  }

  /** A mkdir that succeeds only adds directories. */
  lemma {:induction false} MkdirKeeps(n: Nodes, p: Path, parents: bool)
    requires Mkdir(n, p, parents).Some?
    ensures var m := Mkdir(n, p, parents).value;
      && (forall q :: q in n ==> q in m && m[q] == n[q])
      && (forall q :: q in m && q !in n ==> m[q] == Dir)
    decreases |p|
  {
    if parents && p !in n {
      MkdirKeeps(n, Parent(p), true);
    }
  }

  /** Across the whole run, nothing is overwritten: every entry that was not moved away is
      still there, as it was. */
  lemma {:induction false} RunKeeps(n: Nodes, buckets: seq<Bucket>, parents: bool, fails: set<Path>)
    ensures var run := RunBuckets(n, buckets, parents, fails);
      forall q :: q in n && q !in MovedSources(Flatten(run.results)) ==> q in run.nodes && run.nodes[q] == n[q]
    decreases |buckets|
  {
    if buckets != [] {
      var b := buckets[0];
      if Mkdir(n, b.folder, parents).Some? {
        var n1 := Mkdir(n, b.folder, parents).value;
        MkdirKeeps(n, b.folder, parents);
        var (n2, rs) := MoveAll(n1, b.folder, b.files, fails);
        MoveAllKeeps(n1, b.folder, b.files, fails);
        RunKeeps(n2, buckets[1..], parents, fails);
        var rest := RunBuckets(n2, buckets[1..], parents, fails);
        assert ([rs] + rest.results)[1..] == rest.results;
        TargetsAndSourcesAppend(rs, Flatten(rest.results));
      }
    }
  }

  /** Across the whole run, nothing else appears: every entry afterwards is a moved file's
      new place, a directory, or an entry that was there before, not moved away and
      unchanged. */
  lemma {:induction false} RunOnlyTargets(n: Nodes, buckets: seq<Bucket>, parents: bool, fails: set<Path>)
    ensures var run := RunBuckets(n, buckets, parents, fails);
      forall q :: q in run.nodes ==>
        || q in Targets(Flatten(run.results))
        || run.nodes[q] == Dir
        || (q in n && q !in MovedSources(Flatten(run.results)) && run.nodes[q] == n[q])
    decreases |buckets|
  {
    if buckets != [] {
      var b := buckets[0];
      if Mkdir(n, b.folder, parents).Some? {
        var n1 := Mkdir(n, b.folder, parents).value;
        MkdirKeeps(n, b.folder, parents);
        var (n2, rs) := MoveAll(n1, b.folder, b.files, fails);
        MoveAllOnlyTargets(n1, b.folder, b.files, fails);
        RunOnlyTargets(n2, buckets[1..], parents, fails);
        var rest := RunBuckets(n2, buckets[1..], parents, fails);
        assert ([rs] + rest.results)[1..] == rest.results;
        TargetsAndSourcesAppend(rs, Flatten(rest.results));
      }
    }
  }

  /** A move that goes through renames one file to a place that is free, and one that
      raises changes nothing, so across a bucket the number of files never changes. */
  lemma {:induction false} MoveAllFileCount(n: Nodes, folder: Path, files: seq<Path>, fails: set<Path>)
    ensures |FileEntries(MoveAll(n, folder, files, fails).0)| == |FileEntries(n)|
    decreases |files|
  {
    if files != [] {
      var (n1, r) := MoveOne(n, folder, files[0], fails);
      MoveOneFacts(n, folder, files[0], fails);
      if r.moved {
        MovedKeepsFileCount(n, files[0], r.target);
      }
      MoveAllFileCount(n1, folder, files[1..], fails);
    }
  }

  /** Across the whole run the number of files never changes: the mkdirs add only
      directories and each move renames one file to a free place. */
  lemma {:induction false} RunFileCount(n: Nodes, buckets: seq<Bucket>, parents: bool, fails: set<Path>)
    ensures |FileEntries(RunBuckets(n, buckets, parents, fails).nodes)| == |FileEntries(n)|
    decreases |buckets|
  {
    if buckets != [] {
      var b := buckets[0];
      if Mkdir(n, b.folder, parents).Some? {
        var n1 := Mkdir(n, b.folder, parents).value;
        MkdirKeeps(n, b.folder, parents);
        assert FileEntries(n1) == FileEntries(n);
        MoveAllFileCount(n1, b.folder, b.files, fails);
        RunFileCount(MoveAll(n1, b.folder, b.files, fails).0, buckets[1..], parents, fails);
      }
    }
  }

  /** No two moves of rs that went through share a target. */
  ghost predicate DistinctTargets(rs: seq<MoveResult>)
  {
    forall i, j :: 0 <= i < j < |rs| && rs[i].moved && rs[j].moved ==> rs[i].target != rs[j].target
  }

  lemma DistinctTargetsJoin(a: seq<MoveResult>, b: seq<MoveResult>)
    requires DistinctTargets(a) && DistinctTargets(b)
    requires forall t :: t in Targets(a) ==> t !in Targets(b)
    ensures DistinctTargets(a + b)
  {
    var ab := a + b;
    forall i, j | 0 <= i < j < |ab| && ab[i].moved && ab[j].moved ensures ab[i].target != ab[j].target {
      if j < |a| {
        assert ab[i] == a[i] && ab[j] == a[j];
      } else if i >= |a| {
        assert ab[i] == b[i - |a|] && ab[j] == b[j - |a|];
      } else {
        assert ab[i] == a[i] && ab[j] == b[j - |a|];
        TargetMember(a, i);
        TargetMember(b, j - |a|);
      }
    }
  }

  /** Within a bucket of present entries, each listed once, no two files that moved were
      sent to the same place. */
  lemma {:induction false} MoveAllDistinct(n: Nodes, folder: Path, files: seq<Path>, fails: set<Path>)
    requires NoDups(files) && forall f :: f in files ==> f in n
    ensures DistinctTargets(MoveAll(n, folder, files, fails).1)
    decreases |files|
  {
    if files != [] {
      var (n1, r) := MoveOne(n, folder, files[0], fails);
      MoveOneFacts(n, folder, files[0], fails);
      var tail := files[1..];
      assert forall f :: f in tail ==> f in n && f in n1 by {
        forall f | f in tail ensures f in n && f in n1 {
          var j :| 0 <= j < |tail| && tail[j] == f;
          assert files[j + 1] == f && files[0] != f;
        }
      }
      MoveAllDistinct(n1, folder, tail, fails);
      var (m, rs) := MoveAll(n1, folder, tail, fails);
      assert MoveAll(n, folder, files, fails) == (m, [r] + rs);
      MoveAllTargetsFresh(n1, folder, tail, fails);
      MoveAllSources(n1, folder, tail, fails);
      if r.moved {
        assert r.target in n1 && r.target !in n;
        assert forall t :: t in Targets(rs) && t in n1 ==> t in n;
      }
      DistinctTargetsJoin([r], rs);
    }
  }

  /** A move only ever targets a place free at that moment, so a target of a run that was
      present at the start must have been emptied by a move of the same run. */
  lemma {:induction false} RunTargetsFresh(n: Nodes, buckets: seq<Bucket>, parents: bool, fails: set<Path>)
    ensures var flat := Flatten(RunBuckets(n, buckets, parents, fails).results);
      forall t :: t in Targets(flat) && t in n ==> t in MovedSources(flat)
    decreases |buckets|
  {
    if buckets != [] {
      var b := buckets[0];
      if Mkdir(n, b.folder, parents).Some? {
        var n1 := Mkdir(n, b.folder, parents).value;
        MkdirKeeps(n, b.folder, parents);
        var (n2, rs) := MoveAll(n1, b.folder, b.files, fails);
        MoveAllTargetsFresh(n1, b.folder, b.files, fails);
        MoveAllKeeps(n1, b.folder, b.files, fails);
        RunTargetsFresh(n2, buckets[1..], parents, fails);
        var rest := RunBuckets(n2, buckets[1..], parents, fails);
        assert ([rs] + rest.results)[1..] == rest.results;
        TargetsAndSourcesAppend(rs, Flatten(rest.results));
      }
    }
  }

  /** Across a run of a plan of present entries, each listed once, no two files that moved
      were sent to the same place. */
  lemma {:induction false} RunDistinct(n: Nodes, buckets: seq<Bucket>, parents: bool, fails: set<Path>)
    requires NoDups(AllFiles(buckets)) && forall f :: f in AllFiles(buckets) ==> f in n
    ensures DistinctTargets(Flatten(RunBuckets(n, buckets, parents, fails).results))
    decreases |buckets|
  {
    if buckets != [] && Mkdir(n, buckets[0].folder, parents).Some? {
      var b := buckets[0];
      var n1 := Mkdir(n, b.folder, parents).value;
      var (n2, rs) := MoveAll(n1, b.folder, b.files, fails);
      LaterBucketsKept(n, buckets, parents, fails);
      MkdirKeeps(n, b.folder, parents);
      assert AllFiles(buckets) == b.files + AllFiles(buckets[1..]);
      MoveAllDistinct(n1, b.folder, b.files, fails);
      RunDistinct(n2, buckets[1..], parents, fails);
      var rest := RunBuckets(n2, buckets[1..], parents, fails);
      assert ([rs] + rest.results)[1..] == rest.results;
      assert forall f :: f in b.files ==> f in n && f !in AllFiles(buckets[1..]);
      FirstTargetsNotReused(n, n1, b, buckets[1..], parents, fails, n2, rs);
      DistinctTargetsJoin(rs, Flatten(rest.results));
    }
  }

  /** No later bucket sends a file to where a file of the first bucket went: that place is
      occupied from then on, and only a later bucket's own file, none of which is in the
      first bucket, could have emptied it. */
  lemma FirstTargetsNotReused(n: Nodes, n1: Nodes, b: Bucket, later: seq<Bucket>, parents: bool, fails: set<Path>,
                               n2: Nodes, rs: seq<MoveResult>)
    requires forall q :: q in n ==> q in n1
    requires NoDups(b.files) && forall f :: f in b.files ==> f in n && f !in AllFiles(later)
    requires forall f :: f in AllFiles(later) ==> f in n
    requires MoveAll(n1, b.folder, b.files, fails) == (n2, rs)
    ensures forall t :: t in Targets(rs) ==> t !in Targets(Flatten(RunBuckets(n2, later, parents, fails).results))
  {
    var flat := Flatten(RunBuckets(n2, later, parents, fails).results);
    MoveAllArrives(n1, b.folder, b.files, fails);
    MoveAllTargetsFresh(n1, b.folder, b.files, fails);
    MoveAllSources(n1, b.folder, b.files, fails);
    RunTargetsFresh(n2, later, parents, fails);
    RunSources(n2, later, parents, fails);
    forall t | t in Targets(rs) ensures t !in Targets(flat) {
      MovedSourceIsSource(rs, t);
      assert t in n2;
      assert t in Targets(flat) ==> t in AllFiles(later);
      assert t in AllFiles(later) ==> t in b.files;
    }
  }

  /** The files of all buckets, in plan order. */
  function AllFiles(buckets: seq<Bucket>): seq<Path>
  {
    if buckets == [] then [] else buckets[0].files + AllFiles(buckets[1..])
  }


  method MoveFiles(fs: FileSystem, folder: Path, files: seq<Path>, fails: set<Path>)
    returns (results: seq<MoveResult>, movedCount: nat)
    requires fs.Valid()
    modifies fs
    ensures fs.Valid()
    ensures MoveAll(old(fs.nodes), folder, files, fails) == (fs.nodes, results)
    ensures movedCount == CountMoved(results)
  {
    results, movedCount := [], 0;
    var i := 0;
    ghost var whole := MoveAll(fs.nodes, folder, files, fails);
    assert files[i..] == files && [] + whole.1 == whole.1;
    while i < |files|
      invariant 0 <= i <= |files| && fs.Valid()
      invariant MoveAll(old(fs.nodes), folder, files, fails) == Resume(results, MoveAll(fs.nodes, folder, files[i..], fails))
      invariant movedCount == CountMoved(results)
    {
      ghost var before := fs.nodes;
      var r := MoveFile(fs, folder, files[i], fails);
      ResumeStep(results, r, before, fs.nodes, folder, files, i, fails);
      CountMovedAppend(results, r);
      results := results + [r];
      if r.moved {
        movedCount := movedCount + 1;
      }
      i := i + 1;
    }
    assert files[i..] == [] && results + [] == results;
  }

  /** The body of the per-file loop: find a free name, then try the move. */
  method MoveFile(fs: FileSystem, folder: Path, src: Path, fails: set<Path>) returns (r: MoveResult)
    requires fs.Valid()
    modifies fs
    ensures fs.Valid()
    ensures MoveOne(old(fs.nodes), folder, src, fails) == (fs.nodes, r)
  {
    var target := FreeTarget(fs, folder, PathName(src));
    var ok := fs.Move(src, target, fails);
    r := MoveResult(src, target, ok);
  }

  /** The rest of a loop run after the results already gathered. */
  function Resume(done: seq<MoveResult>, rest: (Nodes, seq<MoveResult>)): (Nodes, seq<MoveResult>)
  {
    (rest.0, done + rest.1)
  }

  /** One turn of the per-file loop moves one file from the work still to do to the
      results already gathered. */
  lemma ResumeStep(done: seq<MoveResult>, r: MoveResult, before: Nodes, after: Nodes,
                   folder: Path, files: seq<Path>, i: nat, fails: set<Path>)
    requires i < |files| && MoveOne(before, folder, files[i], fails) == (after, r)
    ensures Resume(done, MoveAll(before, folder, files[i..], fails))
         == Resume(done + [r], MoveAll(after, folder, files[i + 1..], fails))
  {
    assert files[i..][1..] == files[i + 1..];
    var rest := MoveAll(after, folder, files[i + 1..], fails);
    assert done + ([r] + rest.1) == (done + [r]) + rest.1;
  }

  lemma {:induction false} CountMovedAppend(rs: seq<MoveResult>, r: MoveResult)
    ensures CountMoved(rs + [r]) == CountMoved(rs) + if r.moved then 1 else 0
  {
    if rs != [] {
      assert (rs + [r])[1..] == rs[1..] + [r];
      CountMovedAppend(rs[1..], r);
    }
  }

  method ExecuteBuckets(fs: FileSystem, buckets: seq<Bucket>, parents: bool, fails: set<Path>)
    returns (results: seq<seq<MoveResult>>, completed: bool)
    requires fs.Valid()
    modifies fs
    ensures fs.Valid()
    ensures RunBuckets(old(fs.nodes), buckets, parents, fails) == Run(results, completed, fs.nodes)
  {
    results := [];
    var i := 0;
    assert buckets[i..] == buckets;
    while i < |buckets|
      invariant 0 <= i <= |buckets| && fs.Valid()
      invariant RunBuckets(old(fs.nodes), buckets, parents, fails) == Continue(results, RunBuckets(fs.nodes, buckets[i..], parents, fails))
    {
      ghost var before := fs.nodes;
      var b := buckets[i];
      var ok := fs.MakeDirectory(b.folder, parents);
      if !ok {
        assert RunBuckets(before, buckets[i..], parents, fails) == Run([], false, before);
        return results, false;
      }
      ghost var made := fs.nodes;
      var moved, _ := MoveFiles(fs, b.folder, b.files, fails);
      ContinueStep(results, moved, before, made, fs.nodes, buckets, i, parents, fails);
      results := results + [moved];
      i := i + 1;
    }
    completed := true;
  }

  /** The rest of the bucket loop after the buckets already done. */
  function Continue(done: seq<seq<MoveResult>>, rest: Run): Run
  {
    Run(done + rest.results, rest.completed, rest.nodes)
  }

  /** One turn of the bucket loop whose mkdir went through moves one bucket from the work
      still to do to the results already gathered. */
  lemma ContinueStep(done: seq<seq<MoveResult>>, moved: seq<MoveResult>, before: Nodes, made: Nodes,
                     after: Nodes, buckets: seq<Bucket>, i: nat, parents: bool, fails: set<Path>)
    requires i < |buckets| && Mkdir(before, buckets[i].folder, parents) == Some(made)
    requires MoveAll(made, buckets[i].folder, buckets[i].files, fails) == (after, moved)
    ensures Continue(done, RunBuckets(before, buckets[i..], parents, fails))
         == Continue(done + [moved], RunBuckets(after, buckets[i + 1..], parents, fails))
  {
    assert buckets[i..][1..] == buckets[i + 1..];
    var rest := RunBuckets(after, buckets[i + 1..], parents, fails);
    assert done + ([moved] + rest.results) == (done + [moved]) + rest.results;
  }

  /** A move only ever targets a place that is free at that moment, so a target that was
      present at the start must have been emptied by an earlier move of the same loop. */
  lemma {:induction false} MoveAllTargetsFresh(n: Nodes, folder: Path, files: seq<Path>, fails: set<Path>)
    ensures var (m, rs) := MoveAll(n, folder, files, fails);
      forall t :: t in Targets(rs) && t in n ==> t in MovedSources(rs)
    decreases |files|
  {
    if files != [] {
      var (n1, r) := MoveOne(n, folder, files[0], fails);
      MoveOneFacts(n, folder, files[0], fails);
      MoveAllTargetsFresh(n1, folder, files[1..], fails);
      var (m, rs) := MoveAll(n1, folder, files[1..], fails);
      assert MoveAll(n, folder, files, fails) == (m, [r] + rs);
      assert ([r] + rs)[1..] == rs;
    }
  }

  /** The files moves took away all come from the bucket. */
  lemma MoveAllSources(n: Nodes, folder: Path, files: seq<Path>, fails: set<Path>)
    ensures forall x :: x in MovedSources(MoveAll(n, folder, files, fails).1) ==> x in files
  {
    var rs := MoveAll(n, folder, files, fails).1;
    MoveAllShape(n, folder, files, fails);
    forall x | x in MovedSources(rs) ensures x in files {
      MovedSourceIsSource(rs, x);
    }
  }

  /** The files moves took away in a run all come from its buckets. */
  lemma {:induction false} RunSources(n: Nodes, buckets: seq<Bucket>, parents: bool, fails: set<Path>)
    ensures forall x :: x in MovedSources(Flatten(RunBuckets(n, buckets, parents, fails).results)) ==> x in AllFiles(buckets)
    decreases |buckets|
  {
    if buckets != [] {
      var b := buckets[0];
      if Mkdir(n, b.folder, parents).Some? {
        var n1 := Mkdir(n, b.folder, parents).value;
        var (n2, rs) := MoveAll(n1, b.folder, b.files, fails);
        MoveAllSources(n1, b.folder, b.files, fails);
        RunSources(n2, buckets[1..], parents, fails);
        var rest := RunBuckets(n2, buckets[1..], parents, fails);
        assert ([rs] + rest.results)[1..] == rest.results;
        TargetsAndSourcesAppend(rs, Flatten(rest.results));
      }
    }
  }

  lemma NoDupsSplit(a: seq<Path>, b: seq<Path>)
    requires NoDups(a + b)
    ensures NoDups(a) && NoDups(b) && forall x :: x in a ==> x !in b
  {
    forall i, j | 0 <= i < j < |a| ensures a[i] != a[j] {
      assert (a + b)[i] == a[i] && (a + b)[j] == a[j];
    }
    forall i, j | 0 <= i < j < |b| ensures b[i] != b[j] {
      assert (a + b)[|a| + i] == b[i] && (a + b)[|a| + j] == b[j];
    }
    forall x | x in a ensures x !in b {
      var i :| 0 <= i < |a| && a[i] == x;
      forall j | 0 <= j < |b| ensures b[j] != x {
        assert (a + b)[i] == a[i] && (a + b)[|a| + j] == b[j];
      }
    }
  }

  /** Across the whole run, every move that went through leaves the file it moved at its new
      place, provided the plan lists present entries, each once. */
  lemma {:induction false} RunArrives(n: Nodes, buckets: seq<Bucket>, parents: bool, fails: set<Path>)
    requires NoDups(AllFiles(buckets)) && forall f :: f in AllFiles(buckets) ==> f in n
    ensures var run := RunBuckets(n, buckets, parents, fails);
      forall i :: 0 <= i < |run.results| ==> Arrives(n, run.nodes, run.results[i])
    decreases |buckets|
  {
    if buckets != [] && Mkdir(n, buckets[0].folder, parents).Some? {
      var b := buckets[0];
      var n2 := MoveAll(Mkdir(n, b.folder, parents).value, b.folder, b.files, fails).0;
      LaterBucketsKept(n, buckets, parents, fails);
      RunArrives(n2, buckets[1..], parents, fails);
      RunArrivesJoin(n, buckets, parents, fails);
    }
  }

  /** The files of the later buckets are present, each once, and as they were, after the
      first bucket. */
  lemma LaterBucketsKept(n: Nodes, buckets: seq<Bucket>, parents: bool, fails: set<Path>)
    requires buckets != [] && Mkdir(n, buckets[0].folder, parents).Some?
    requires NoDups(AllFiles(buckets)) && forall f :: f in AllFiles(buckets) ==> f in n
    ensures var b := buckets[0];
      var n2 := MoveAll(Mkdir(n, b.folder, parents).value, b.folder, b.files, fails).0;
      && NoDups(b.files) && NoDups(AllFiles(buckets[1..]))
      && (forall f :: f in b.files ==> f !in AllFiles(buckets[1..]))
      && forall f :: f in AllFiles(buckets[1..]) ==> f in n && f in n2 && n2[f] == n[f]
  {
    var b := buckets[0];
    var later := AllFiles(buckets[1..]);
    var n1 := Mkdir(n, b.folder, parents).value;
    assert AllFiles(buckets) == b.files + later;
    NoDupsSplit(b.files, later);
    MkdirKeeps(n, b.folder, parents);
    MoveAllKeeps(n1, b.folder, b.files, fails);
    MoveAllSources(n1, b.folder, b.files, fails);
  }

  /** What a run of buckets of present files, each listed once, does with them: the moves
      that went through send their files to pairwise distinct targets, where each arrives
      unchanged; every entry that was not moved stays as it was; and only bucket files
      move. So no file is lost or overwritten. */
  lemma RunRelocates(n: Nodes, buckets: seq<Bucket>, parents: bool, fails: set<Path>)
    requires NoDups(AllFiles(buckets)) && forall f :: f in AllFiles(buckets) ==> f in n
    ensures var run := RunBuckets(n, buckets, parents, fails);
      var rs := Flatten(run.results);
      && DistinctTargets(rs) && Arrives(n, run.nodes, rs)
      && (forall q :: q in n && q !in MovedSources(rs) ==> q in run.nodes && run.nodes[q] == n[q])
      && (forall x :: x in MovedSources(rs) ==> x in AllFiles(buckets))
  {
    RunDistinct(n, buckets, parents, fails);
    RunArrivesFlat(n, buckets, parents, fails);
    RunKeeps(n, buckets, parents, fails);
    RunSources(n, buckets, parents, fails);
  }

  /** Every move of the run that went through leaves its file unchanged at its target. */
  lemma RunArrivesFlat(n: Nodes, buckets: seq<Bucket>, parents: bool, fails: set<Path>)
    requires NoDups(AllFiles(buckets)) && forall f :: f in AllFiles(buckets) ==> f in n
    ensures var run := RunBuckets(n, buckets, parents, fails);
      Arrives(n, run.nodes, Flatten(run.results))
  {
    var run := RunBuckets(n, buckets, parents, fails);
    var flat := Flatten(run.results);
    RunArrives(n, buckets, parents, fails);
    forall k | 0 <= k < |flat| && flat[k].moved
      ensures flat[k].source in n && flat[k].target in run.nodes && run.nodes[flat[k].target] == n[flat[k].source]
    {
      FlattenIndex(run.results, k);
      var i, j :| 0 <= i < |run.results| && 0 <= j < |run.results[i]| && flat[k] == run.results[i][j];
      assert Arrives(n, run.nodes, run.results[i]);
    }
  }

  /** The induction step of RunArrives: the first bucket's moves and the later ones'. */
  lemma RunArrivesJoin(n: Nodes, buckets: seq<Bucket>, parents: bool, fails: set<Path>)
    requires buckets != [] && Mkdir(n, buckets[0].folder, parents).Some?
    requires NoDups(AllFiles(buckets)) && forall f :: f in AllFiles(buckets) ==> f in n
    requires var b := buckets[0];
      var n2 := MoveAll(Mkdir(n, b.folder, parents).value, b.folder, b.files, fails).0;
      var rest := RunBuckets(n2, buckets[1..], parents, fails);
      && NoDups(b.files) && (forall f :: f in b.files ==> f !in AllFiles(buckets[1..]))
      && (forall f :: f in AllFiles(buckets[1..]) ==> f in n && f in n2 && n2[f] == n[f])
      && forall i :: 0 <= i < |rest.results| ==> Arrives(n2, rest.nodes, rest.results[i])
    ensures var run := RunBuckets(n, buckets, parents, fails);
      forall i :: 0 <= i < |run.results| ==> Arrives(n, run.nodes, run.results[i])
  {
    var b := buckets[0];
    var n1 := Mkdir(n, b.folder, parents).value;
    var moved := MoveAll(n1, b.folder, b.files, fails);
    var n2, rs := moved.0, moved.1;
    var rest := RunBuckets(n2, buckets[1..], parents, fails);
    assert AllFiles(buckets) == b.files + AllFiles(buckets[1..]);
    MkdirKeeps(n, b.folder, parents);
    FirstBucketArrives(n, n1, b, buckets[1..], parents, fails, n2, rs);
    LaterBucketsArrive(n, n2, buckets[1..], parents, fails, rest);
    ResultsArriveCons(n, rest.nodes, rs, rest.results);
    assert RunBuckets(n, buckets, parents, fails) == Run([rs] + rest.results, rest.completed, rest.nodes);
  }

  lemma ResultsArriveCons(n: Nodes, m: Nodes, rs: seq<MoveResult>, later: seq<seq<MoveResult>>)
    requires Arrives(n, m, rs) && forall i :: 0 <= i < |later| ==> Arrives(n, m, later[i])
    ensures forall i :: 0 <= i < |[rs] + later| ==> Arrives(n, m, ([rs] + later)[i])
  {
    forall i | 0 <= i < |[rs] + later| ensures Arrives(n, m, ([rs] + later)[i]) {
      if i > 0 {
        assert ([rs] + later)[i] == later[i - 1];
      }
    }
  }

  /** LaterBucketArrives for every later bucket. */
  lemma LaterBucketsArrive(n: Nodes, n2: Nodes, later: seq<Bucket>, parents: bool, fails: set<Path>, run: Run)
    requires forall f :: f in AllFiles(later) ==> f in n && f in n2 && n2[f] == n[f]
    requires run == RunBuckets(n2, later, parents, fails)
    requires forall i :: 0 <= i < |run.results| ==> Arrives(n2, run.nodes, run.results[i])
    ensures forall i :: 0 <= i < |run.results| ==> Arrives(n, run.nodes, run.results[i])
  {
    forall i | 0 <= i < |run.results| ensures Arrives(n, run.nodes, run.results[i]) {
      LaterBucketArrives(n, n2, later, parents, fails, i);
    }
  }

  /** The moves of the first bucket stay where they arrived through the rest of the run:
      no later bucket lists what they left behind. */
  lemma FirstBucketArrives(n: Nodes, n1: Nodes, b: Bucket, later: seq<Bucket>, parents: bool, fails: set<Path>,
                           n2: Nodes, rs: seq<MoveResult>)
    requires forall q :: q in n ==> q in n1 && n1[q] == n[q]
    requires NoDups(b.files) && forall f :: f in b.files ==> f in n && f !in AllFiles(later)
    requires forall f :: f in AllFiles(later) ==> f in n
    requires MoveAll(n1, b.folder, b.files, fails) == (n2, rs)
    ensures Arrives(n, RunBuckets(n2, later, parents, fails).nodes, rs)
  {
    MoveAllArrives(n1, b.folder, b.files, fails);
    MoveAllTargetsFresh(n1, b.folder, b.files, fails);
    MoveAllSources(n1, b.folder, b.files, fails);
    var rest := RunBuckets(n2, later, parents, fails);
    RunKeeps(n2, later, parents, fails);
    RunSources(n2, later, parents, fails);
    forall j | 0 <= j < |rs| && rs[j].moved
      ensures rs[j].source in n && rs[j].target in rest.nodes && rest.nodes[rs[j].target] == n[rs[j].source]
    {
      var t := rs[j].target;
      TargetMember(rs, j);
      assert t !in AllFiles(later) by {
        if t in n1 {
          assert t in MovedSources(rs);
        }
      }
    }
  }

  /** The moves of a later bucket left entries that the earlier buckets did not touch. */
  lemma LaterBucketArrives(n: Nodes, n2: Nodes, later: seq<Bucket>, parents: bool, fails: set<Path>, i: nat)
    requires forall f :: f in AllFiles(later) ==> f in n && f in n2 && n2[f] == n[f]
    requires var run := RunBuckets(n2, later, parents, fails);
      i < |run.results| && Arrives(n2, run.nodes, run.results[i])
    ensures var run := RunBuckets(n2, later, parents, fails);
      Arrives(n, run.nodes, run.results[i])
  {
    var run := RunBuckets(n2, later, parents, fails);
    RunShape(n2, later, parents, fails);
    forall j | 0 <= j < |run.results[i]| && run.results[i][j].moved
      ensures run.results[i][j].source in n && n2[run.results[i][j].source] == n[run.results[i][j].source]
    {
      InAllFiles(later, i, j);
    }
  }

  lemma {:induction false} TargetMember(rs: seq<MoveResult>, j: nat)
    requires j < |rs| && rs[j].moved
    ensures rs[j].target in Targets(rs) && rs[j].source in MovedSources(rs)
  {
    if j > 0 {
      TargetMember(rs[1..], j - 1);
    }
  }

  lemma {:induction false} InAllFiles(buckets: seq<Bucket>, i: nat, j: nat)
    requires i < |buckets| && j < |buckets[i].files|
    ensures buckets[i].files[j] in AllFiles(buckets)
  {
    if i > 0 {
      InAllFiles(buckets[1..], i - 1, j);
    }
  }

  /** Every entry of the flattened results is the result of one file of one bucket. */
  lemma {:induction false} FlattenIndex(rss: seq<seq<MoveResult>>, k: nat)
    requires k < |Flatten(rss)|
    ensures exists i, j :: 0 <= i < |rss| && 0 <= j < |rss[i]| && Flatten(rss)[k] == rss[i][j]
  {
    if k < |rss[0]| {
      assert Flatten(rss)[k] == rss[0][k];
    } else {
      FlattenIndex(rss[1..], k - |rss[0]|);
      var i, j :| 0 <= i < |rss[1..]| && 0 <= j < |rss[1..][i]| && Flatten(rss[1..])[k - |rss[0]|] == rss[1..][i][j];
      assert Flatten(rss)[k] == rss[i + 1][j];
    }
  }

  lemma {:induction false} CountMovedConcat(a: seq<MoveResult>, b: seq<MoveResult>)
    ensures CountMoved(a + b) == CountMoved(a) + CountMoved(b)
  {
    if a == [] {
      assert a + b == b;
    } else {
      assert (a + b)[1..] == a[1..] + b;
      CountMovedConcat(a[1..], b);
    }
  }

  lemma {:induction false} FailuresConcat(a: seq<MoveResult>, b: seq<MoveResult>)
    ensures Failures(a + b) == Failures(a) + Failures(b)
  {
    if a == [] {
      assert a + b == b;
    } else {
      assert (a + b)[1..] == a[1..] + b;
      FailuresConcat(a[1..], b);
    }
  }

  /** A completed run has one result for every file of the plan. */
  lemma {:induction false} RunLength(n: Nodes, buckets: seq<Bucket>, parents: bool, fails: set<Path>)
    ensures var run := RunBuckets(n, buckets, parents, fails);
      run.completed ==> |Flatten(run.results)| == |AllFiles(buckets)|
    decreases |buckets|
  {
    if buckets != [] {
      var b := buckets[0];
      if Mkdir(n, b.folder, parents).Some? {
        var n1 := Mkdir(n, b.folder, parents).value;
        var (n2, rs) := MoveAll(n1, b.folder, b.files, fails);
        MoveAllShape(n1, b.folder, b.files, fails);
        RunLength(n2, buckets[1..], parents, fails);
        var rest := RunBuckets(n2, buckets[1..], parents, fails);
        assert ([rs] + rest.results)[1..] == rest.results;
      }
    }
  }

  /** When a completed run reports no failure, every file of the plan was moved. */
  lemma {:induction false} RunMovesAll(n: Nodes, buckets: seq<Bucket>, parents: bool, fails: set<Path>)
    ensures var run := RunBuckets(n, buckets, parents, fails);
      run.completed && Failures(Flatten(run.results)) == [] ==>
        forall f :: f in AllFiles(buckets) ==> f in MovedSources(Flatten(run.results))
    decreases |buckets|
  {
    if buckets != [] {
      var b := buckets[0];
      if Mkdir(n, b.folder, parents).Some? {
        var n1 := Mkdir(n, b.folder, parents).value;
        var (n2, rs) := MoveAll(n1, b.folder, b.files, fails);
        RunMovesAll(n2, buckets[1..], parents, fails);
        var rest := RunBuckets(n2, buckets[1..], parents, fails);
        assert ([rs] + rest.results)[1..] == rest.results;
        FailuresConcat(rs, Flatten(rest.results));
        TargetsAndSourcesAppend(rs, Flatten(rest.results));
        MoveAllMovesAll(n1, b.folder, b.files, fails);
      }
    }
  }

  /** When no move of a bucket failed, every file of the bucket was moved. */
  lemma MoveAllMovesAll(n: Nodes, folder: Path, files: seq<Path>, fails: set<Path>)
    ensures var rs := MoveAll(n, folder, files, fails).1;
      Failures(rs) == [] ==> forall f :: f in files ==> f in MovedSources(rs)
  {
    MoveAllShape(n, folder, files, fails);
    NoFailureMeansMoved(MoveAll(n, folder, files, fails).1, files);
  }

  lemma NoFailureMeansMoved(rs: seq<MoveResult>, files: seq<Path>)
    requires |rs| == |files| && forall i :: 0 <= i < |rs| ==> rs[i].source == files[i]
    ensures Failures(rs) == [] ==> forall f :: f in files ==> f in MovedSources(rs)
  {
    if Failures(rs) == [] {
      forall f | f in files ensures f in MovedSources(rs) {
        var j :| 0 <= j < |files| && files[j] == f;
        var r := rs[j];
        assert !r.moved ==> r.source in Failures(rs);
        TargetMember(rs, j);
      }
    }
  }

  /** Moves put files directly inside the bucket folders: when every folder lies at one
      depth, every target lies one level deeper. */
  lemma {:induction false} RunTargetsDepth(n: Nodes, buckets: seq<Bucket>, parents: bool, fails: set<Path>, depth: nat)
    requires forall i :: 0 <= i < |buckets| ==> |buckets[i].folder| == depth
    ensures forall t :: t in Targets(Flatten(RunBuckets(n, buckets, parents, fails).results)) ==> |t| == depth + 1
    decreases |buckets|
  {
    if buckets != [] {
      var b := buckets[0];
      if Mkdir(n, b.folder, parents).Some? {
        var n1 := Mkdir(n, b.folder, parents).value;
        var (n2, rs) := MoveAll(n1, b.folder, b.files, fails);
        MoveAllShape(n1, b.folder, b.files, fails);
        RunTargetsDepth(n2, buckets[1..], parents, fails, depth);
        var rest := RunBuckets(n2, buckets[1..], parents, fails);
        assert ([rs] + rest.results)[1..] == rest.results;
        TargetsAndSourcesAppend(rs, Flatten(rest.results));
        forall t | t in Targets(rs) ensures |t| == depth + 1 {
          MovedSourceIsSource(rs, t);
        }
      }
    }
  }

  /** A file a run moved away sits, unchanged, directly inside the folder of a bucket that
      lists it, under its own name or a collision name. */
  lemma MovedIntoBucket(n: Nodes, buckets: seq<Bucket>, parents: bool, fails: set<Path>, f: Path)
    requires NoDups(AllFiles(buckets)) && forall x :: x in AllFiles(buckets) ==> x in n
    requires f in n && f in MovedSources(Flatten(RunBuckets(n, buckets, parents, fails).results))
    ensures var m := RunBuckets(n, buckets, parents, fails).nodes;
      exists i, t :: 0 <= i < |buckets| && f in buckets[i].files && t in m && m[t] == n[f]
                     && t == buckets[i].folder + [PathName(t)] && IsRenaming(PathName(f), PathName(t))
  {
    var run := RunBuckets(n, buckets, parents, fails);
    var flat := Flatten(run.results);
    MovedSourceIsSource(flat, f);
    var k :| 0 <= k < |flat| && flat[k].source == f && flat[k].moved;
    FlattenIndex(run.results, k);
    var i, j :| 0 <= i < |run.results| && 0 <= j < |run.results[i]| && flat[k] == run.results[i][j];
    RunShape(n, buckets, parents, fails);
    RunArrives(n, buckets, parents, fails);
    var r := run.results[i][j];
    assert r.source == buckets[i].files[j] == f;
    assert r.target in run.nodes && run.nodes[r.target] == n[f];
  }
}
