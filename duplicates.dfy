/**
 * find_duplicates (support_bot/tools/desktop_tools.py:854-905): the files below a folder
 * are grouped by size, and every positive size shared by two files or more is a group of
 * possible duplicates. The ten largest such sizes are shown, each with its first five
 * files.
 */
module Duplicates {
  import opened Seqs
  import opened Wrappers
  import opened Paths
  import opened Grouping
  import opened FileSystems
  import opened Scanning

  /** size_groups after the scanning loop: the walked files grouped by size. */
  function SizeGroups(n: Nodes, listing: seq<Path>): Groups<nat, Path>
  {
    GroupAll(Filter(listing, FileIn(n)), SizeIn(n))
  }

  /** A group of possible duplicates: two files or more, of a positive size. */
  predicate Suspect(g: (nat, seq<Path>))
  {
    |g.1| > 1 && g.0 > 0
  }

  /** The ranking order: larger sizes first. */
  predicate LargerFirst(a: (nat, seq<Path>), b: (nat, seq<Path>))
  {
    a.0 >= b.0
  }

  lemma LargerFirstOrder()
    ensures TotalPreorder(LargerFirst)
  {
  }

  /** The suspect groups ranked by size, largest first; the sort is stable. */
  function Ranked(d: Groups<nat, Path>): (r: Groups<nat, Path>)
    ensures SortedBy(r, LargerFirst) && multiset(r) == multiset(d)
  {
    LargerFirstOrder();
    SortBy(d, LargerFirst)
  }

  /** One group as shown: its size and files, relative to the folder. */
  datatype Shown = Shown(size: nat, files: seq<Path>)

  datatype Report =
    | Failed                         // an exception reached the outer handler
    | NotFound(folder: string)       // the argument, as given
    | NoDuplicates
    | Duplicates(name: Name, groups: seq<Shown>)

  /** Each group with its first five files. */
  function Display(root: Path, d: Groups<nat, Path>): (r: seq<Shown>)
    ensures |r| == |d|
    ensures forall i :: 0 <= i < |r| ==> r[i] == Shown(d[i].0, RelativeAll(root, Take(d[i].1, 5)))
  {
    if d == [] then [] else [Shown(d[0].0, RelativeAll(root, Take(d[0].1, 5)))] + Display(root, d[1..])
  }

  /** find_duplicates, given the order of the walk. */
  function Find(n: Nodes, env: Env, source: string, listing: seq<Path>): Report
  {
    match ResolveFolder(source, env)
    case None => Failed
    case Some(p) => FindAt(n, env, source, p, listing)
  }

  /** The rest of Find, once the argument resolved to the pure path p. */
  function FindAt(n: Nodes, env: Env, source: string, p: PurePath, listing: seq<Path>): Report
  {
    var root := Location(p, env);
    if root !in n then NotFound(source)
    else
      var d := Filter(SizeGroups(n, listing), Suspect);
      if d == [] then NoDuplicates else Duplicates(PureName(p), Display(root, Take(Ranked(d), 10)))
  }

  method FindDuplicates(fs: FileSystem, env: Env, source: string) returns (report: Report)
    requires fs.Valid()
    ensures exists listing :: IsListingOf(listing, Globbed(fs.nodes, source, env))
                              && report == Find(fs.nodes, env, source, listing)
  {
    var resolved := ResolveFolder(source, env);
    if resolved.None? || Location(resolved.value, env) !in fs.nodes {
      report := if resolved.None? then Failed else NotFound(source);
      ListingExists(Globbed(fs.nodes, source, env));
      return;
    }
    var root := Location(resolved.value, env);
    var listing := fs.RGlob(root);
    var sizeGroups := Collect(listing, FileIn(fs.nodes), SizeIn(fs.nodes));
    var duplicates := Retain(sizeGroups, Suspect);
    if duplicates == [] {
      report := NoDuplicates;
    } else {
      report := Duplicates(PureName(resolved.value), Display(root, Take(Ranked(duplicates), 10)));
    }
    assert report == Find(fs.nodes, env, source, listing);
  }

  /** Each size group holds every walked file of its size, in walk order, and no two
      groups share a size. */
  lemma SizeGroupsAreClasses(n: Nodes, listing: seq<Path>)
    ensures var files := Filter(listing, FileIn(n));
      var g := SizeGroups(n, listing);
      && (forall x :: x in g ==> x.1 == Select(files, SizeIn(n), x.0))
      && (forall i, j :: 0 <= i < j < |g| ==> g[i].0 != g[j].0)
      && NoDups(g)
  {
    var files := Filter(listing, FileIn(n));
    var g := SizeGroups(n, listing);
    GroupAllSelect(files, SizeIn(n));
    forall x | x in g ensures x.1 == Select(files, SizeIn(n), x.0) {
      var i :| 0 <= i < |g| && g[i] == x;
      GroupAllAt(files, SizeIn(n), i);
    }
  }

  /** The ranked groups are the suspect size groups, each once. */
  lemma RankedMembers(n: Nodes, listing: seq<Path>)
    ensures var g := SizeGroups(n, listing);
      var r := Ranked(Filter(g, Suspect));
      (forall x :: x in r <==> x in g && Suspect(x)) && NoDups(r)
  {
    var g := SizeGroups(n, listing);
    var d := Filter(g, Suspect);
    var r := Ranked(d);
    SizeGroupsAreClasses(n, listing);
    forall x ensures x in r <==> x in d {
      assert x in r <==> x in multiset(r);
      assert x in d <==> x in multiset(d);
    }
    FilterNoDups(g, Suspect);
    PermutationNoDups(d, r);
  }

  /** Sizes strictly decrease along the ranking. */
  lemma RankedDescending(n: Nodes, listing: seq<Path>)
    ensures var r := Ranked(Filter(SizeGroups(n, listing), Suspect));
      forall i, j :: 0 <= i < j < |r| ==> r[i].0 > r[j].0
  {
    var g := SizeGroups(n, listing);
    var r := Ranked(Filter(g, Suspect));
    SizeGroupsAreClasses(n, listing);
    RankedMembers(n, listing);
    forall i, j | 0 <= i < j < |r| ensures r[i].0 > r[j].0 {
      assert r[i] in r && r[j] in r;
    }
  }

  /** Each ranked group holds every walked file of its positive size, two or more. */
  lemma RankedGroups(n: Nodes, listing: seq<Path>)
    ensures var files := Filter(listing, FileIn(n));
      var r := Ranked(Filter(SizeGroups(n, listing), Suspect));
      forall i :: 0 <= i < |r| ==> r[i].0 > 0 && |r[i].1| >= 2 && r[i].1 == Select(files, SizeIn(n), r[i].0)
  {
    var r := Ranked(Filter(SizeGroups(n, listing), Suspect));
    SizeGroupsAreClasses(n, listing);
    RankedMembers(n, listing);
    forall i | 0 <= i < |r| ensures r[i] in r {
    }
  }

  /** Every positive size shared by two walked files or more is ranked. */
  lemma RankedComplete(n: Nodes, listing: seq<Path>)
    ensures var files := Filter(listing, FileIn(n));
      var r := Ranked(Filter(SizeGroups(n, listing), Suspect));
      forall s: nat :: s > 0 && |Select(files, SizeIn(n), s)| >= 2 ==> exists i :: 0 <= i < |r| && r[i].0 == s
  {
    RankedMembers(n, listing);
    SuspectsComplete(Filter(listing, FileIn(n)), SizeIn(n), Ranked(Filter(SizeGroups(n, listing), Suspect)));
  }

  /** A list holding exactly the suspect groups of files by size has a group for every
      positive size two files or more share. */
  lemma SuspectsComplete(files: seq<Path>, size: Path -> nat, r: Groups<nat, Path>)
    requires forall x :: x in r <==> x in GroupAll(files, size) && Suspect(x)
    ensures forall s: nat :: s > 0 && |Select(files, size, s)| >= 2 ==> exists i :: 0 <= i < |r| && r[i].0 == s
  {
    var g := GroupAll(files, size);
    forall s: nat | s > 0 && |Select(files, size, s)| >= 2 ensures exists i :: 0 <= i < |r| && r[i].0 == s {
      GroupAllHasKey(files, size, s);
      var i :| 0 <= i < |g| && g[i].0 == s && g[i].1 == Select(files, size, s);
      assert g[i] in g && Suspect(g[i]);
      var j :| 0 <= j < |r| && r[j] == g[i];
    }
  }

  /** ranked lists exactly the size classes of files that have a positive size and two
      files or more: sizes strictly decrease, each group holds every file of its size in
      walk order, and every such size has its group. */
  ghost predicate SizeClasses(files: seq<Path>, size: Path -> nat, ranked: Groups<nat, Path>)
  {
    && (forall i, j :: 0 <= i < j < |ranked| ==> ranked[i].0 > ranked[j].0)
    && (forall i :: 0 <= i < |ranked| ==>
          ranked[i].0 > 0 && |ranked[i].1| >= 2 && ranked[i].1 == Select(files, size, ranked[i].0))
    && (forall s: nat :: s > 0 && |Select(files, size, s)| >= 2 ==> exists i :: 0 <= i < |ranked| && ranked[i].0 == s)
  }

  /** The ranking of find_duplicates lists the size classes of the walked files. */
  lemma RankedSizeClasses(n: Nodes, listing: seq<Path>)
    ensures SizeClasses(Filter(listing, FileIn(n)), SizeIn(n), Ranked(Filter(SizeGroups(n, listing), Suspect)))
  {
    RankedDescending(n, listing);
    RankedGroups(n, listing);
    RankedComplete(n, listing);
  }

  /** The groups shown are the first ten of the ranking, each with its first five files. */
  lemma DisplayShape(root: Path, ranked: Groups<nat, Path>)
    ensures var g := Display(root, Take(ranked, 10));
      && |g| <= 10 && (g == [] <==> ranked == []) && (|g| < 10 ==> |g| == |ranked|)
      && forall i :: 0 <= i < |g| ==>
           g[i].size == ranked[i].0 && g[i].files == RelativeAll(root, Take(ranked[i].1, 5))
  {
    var shown := Take(ranked, 10);
    var g := Display(root, shown);
    forall i | 0 <= i < |g| ensures g[i].size == ranked[i].0 && g[i].files == RelativeAll(root, Take(ranked[i].1, 5)) {
      assert shown[i] == ranked[i];
    }
  }

  /** The groups shown have strictly decreasing sizes, and each is a size class of two
      files or more, cut to its first five, shown relative to root. */
  lemma DisplayOrdered(root: Path, files: seq<Path>, size: Path -> nat, ranked: Groups<nat, Path>)
    requires SizeClasses(files, size, ranked)
    ensures var g := Display(root, Take(ranked, 10));
      && (forall i, j :: 0 <= i < j < |g| ==> g[i].size > g[j].size)
      && (forall i :: 0 <= i < |g| ==>
            var all := Select(files, size, g[i].size);
            && g[i].size > 0 && |all| >= 2 && |g[i].files| == (if |all| <= 5 then |all| else 5)
            && g[i].files == RelativeAll(root, Take(all, 5)))
  {
    var g := Display(root, Take(ranked, 10));
    DisplayShape(root, ranked);
    forall i, j | 0 <= i < j < |g| ensures g[i].size > g[j].size {
    }
    forall i | 0 <= i < |g|
      ensures var all := Select(files, size, g[i].size);
        && g[i].size > 0 && |all| >= 2 && |g[i].files| == (if |all| <= 5 then |all| else 5)
        && g[i].files == RelativeAll(root, Take(all, 5))
    {
      assert Select(files, size, g[i].size) == ranked[i].1;
    }
  }

  /** A shared size that is not shown is smaller than every size shown, and then ten are
      shown. */
  lemma DisplayLeftOut(root: Path, files: seq<Path>, size: Path -> nat, ranked: Groups<nat, Path>)
    requires SizeClasses(files, size, ranked)
    ensures var g := Display(root, Take(ranked, 10));
      forall s: nat :: s > 0 && |Select(files, size, s)| >= 2 && (forall i :: 0 <= i < |g| ==> g[i].size != s)
        ==> |g| == 10 && forall i :: 0 <= i < |g| ==> g[i].size > s
  {
    var g := Display(root, Take(ranked, 10));
    forall s: nat | s > 0 && |Select(files, size, s)| >= 2 && (forall i :: 0 <= i < |g| ==> g[i].size != s)
      ensures |g| == 10 && forall i :: 0 <= i < |g| ==> g[i].size > s
    {
      SizeLeftOut(root, ranked, g, s);
    }
  }

  /** DisplayLeftOut for one ranked size. */
  lemma SizeLeftOut(root: Path, ranked: Groups<nat, Path>, g: seq<Shown>, s: nat)
    requires forall i, j :: 0 <= i < j < |ranked| ==> ranked[i].0 > ranked[j].0
    requires exists k :: 0 <= k < |ranked| && ranked[k].0 == s
    requires g == Display(root, Take(ranked, 10)) && forall i :: 0 <= i < |g| ==> g[i].size != s
    ensures |g| == 10 && forall i :: 0 <= i < |g| ==> g[i].size > s
  {
    var k :| 0 <= k < |ranked| && ranked[k].0 == s;
    RankedBeyondShown(root, ranked, k);
  }

  /** A ranked group that is not shown comes after ten shown groups, all ranked before it. */
  lemma RankedBeyondShown(root: Path, ranked: Groups<nat, Path>, k: nat)
    requires k < |ranked| && forall i, j :: 0 <= i < j < |ranked| ==> ranked[i].0 > ranked[j].0
    requires var g := Display(root, Take(ranked, 10));
      forall i :: 0 <= i < |g| ==> g[i].size != ranked[k].0
    ensures var g := Display(root, Take(ranked, 10));
      |g| == 10 && forall i :: 0 <= i < |g| ==> g[i].size > ranked[k].0
  {
    DisplayShape(root, ranked);
  }

  /** The groups g show the largest shared sizes of files, at most ten, in strictly
      decreasing order, each with the first five files of that size (two at least) in walk
      order, relative to root; a shared size left out is smaller than every size shown,
      and only when ten are shown. */
  ghost predicate ShowsLargest(root: Path, files: seq<Path>, size: Path -> nat, g: seq<Shown>)
  {
    && |g| <= 10
    && (forall i, j :: 0 <= i < j < |g| ==> g[i].size > g[j].size)
    && (forall i :: 0 <= i < |g| ==>
          var all := Select(files, size, g[i].size);
          && g[i].size > 0 && |all| >= 2 && |g[i].files| == (if |all| <= 5 then |all| else 5)
          && g[i].files == RelativeAll(root, Take(all, 5)))
    && forall s: nat :: s > 0 && |Select(files, size, s)| >= 2 && (forall i :: 0 <= i < |g| ==> g[i].size != s)
         ==> |g| == 10 && forall i :: 0 <= i < |g| ==> g[i].size > s
  }

  /** What the ranking's properties give the groups shown. */
  lemma DisplayFacts(root: Path, files: seq<Path>, size: Path -> nat, ranked: Groups<nat, Path>)
    requires SizeClasses(files, size, ranked)
    ensures var g := Display(root, Take(ranked, 10));
      (g == [] <==> ranked == []) && ShowsLargest(root, files, size, g)
  {
    DisplayShape(root, ranked);
    DisplayOrdered(root, files, size, ranked);
    DisplayLeftOut(root, files, size, ranked);
  }

  /** "No duplicates" is reported exactly when no positive size is shared by two walked
      files. */
  lemma FindNone(n: Nodes, env: Env, source: string, listing: seq<Path>)
    ensures Find(n, env, source, listing).NoDuplicates? <==>
              && ResolveFolder(source, env).Some? && Location(ResolveFolder(source, env).value, env) in n
              && Unshared(Filter(listing, FileIn(n)), SizeIn(n))
  {
    if ResolveFolder(source, env).Some? {
      var p := ResolveFolder(source, env).value;
      assert Find(n, env, source, listing) == FindAt(n, env, source, p, listing);
      NoSuspects(n, listing);
    }
  }

  /** No group is suspect exactly when no positive size is shared by two walked files. */
  lemma NoSuspects(n: Nodes, listing: seq<Path>)
    ensures Filter(SizeGroups(n, listing), Suspect) == [] <==> Unshared(Filter(listing, FileIn(n)), SizeIn(n))
  {
    var d := Filter(SizeGroups(n, listing), Suspect);
    RankedSizeClasses(n, listing);
    RankedEmpty(d);
    NoneShared(Filter(listing, FileIn(n)), SizeIn(n), Ranked(d));
  }

  /** Otherwise the report shows the largest shared sizes, at most ten, in strictly
      decreasing order, each with its first five files (two at least) relative to the
      folder; a shared size left
      out is smaller than every size shown, and only when ten are shown. */
  lemma FindShown(n: Nodes, env: Env, source: string, listing: seq<Path>)
    ensures var r := Find(n, env, source, listing);
      r.Duplicates? ==>
        var root := Location(ResolveFolder(source, env).value, env);
        r.groups != [] && ShowsLargest(root, Filter(listing, FileIn(n)), SizeIn(n), r.groups)
  {
    if ResolveFolder(source, env).Some? {
      var p := ResolveFolder(source, env).value;
      assert Find(n, env, source, listing) == FindAt(n, env, source, p, listing);
      FindAtShown(n, env, source, p, listing);
    }
  }

  lemma FindAtShown(n: Nodes, env: Env, source: string, p: PurePath, listing: seq<Path>)
    ensures var r := FindAt(n, env, source, p, listing);
      r.Duplicates? ==> r.groups != [] && ShowsLargest(Location(p, env), Filter(listing, FileIn(n)), SizeIn(n), r.groups)
  {
    var d := Filter(SizeGroups(n, listing), Suspect);
    var root := Location(p, env);
    if root in n && d != [] {
      RankedSizeClasses(n, listing);
      RankedEmpty(d);
      DisplayFacts(root, Filter(listing, FileIn(n)), SizeIn(n), Ranked(d));
    }
  }

  lemma RankedEmpty(d: Groups<nat, Path>)
    ensures Ranked(d) == [] <==> d == []
  {
    assert |multiset(d)| == |d| && |multiset(Ranked(d))| == |Ranked(d)|;
  }

  /** No positive size is shared by two of files. */
  ghost predicate Unshared(files: seq<Path>, size: Path -> nat)
  {
    forall s: nat :: s > 0 ==> |Select(files, size, s)| < 2
  }

  /** The ranking is empty exactly when no positive size is shared by two files. */
  lemma NoneShared(files: seq<Path>, size: Path -> nat, ranked: Groups<nat, Path>)
    requires SizeClasses(files, size, ranked)
    ensures ranked == [] <==> Unshared(files, size)
  {
    if ranked != [] {
      assert |Select(files, size, ranked[0].0)| >= 2;
    }
  }
}
