/**
 * find_large_files (support_bot/tools/desktop_tools.py:908-961): every file below a
 * folder whose size reaches a threshold given in megabytes is a hit; the hits are ranked
 * by size, largest first, the first fifteen are shown with the sum of their sizes, and
 * the number of hits is reported.
 */
module LargeFiles {
  import opened Seqs
  import opened Wrappers
  import opened Paths
  import opened FileSystems
  import opened Scanning

  /** The bytes in a megabyte: 1024 * 1024. */
  const MiB: nat := 1048576

  /** The number of hits shown. */
  const ShownMax: nat := 15

  /** The threshold in bytes: the argument in megabytes, which may be zero or negative,
      times 1024 * 1024. */
  function Threshold(minSizeMb: int): int
  {
    minSizeMb * MiB
  }

  /** A hit: a file whose size reaches the threshold. */
  function LargeIn(n: Nodes, minSize: int): Path -> bool
  {
    item => IsFile(n, item) && n[item].size >= minSize
  }

  /** The files below root that reach the threshold. */
  function LargeUnder(n: Nodes, root: Path, minSize: int): set<Path>
  {
    set p | p in FilesUnder(n, root) && n[p].size >= minSize
  }

  /** One hit: (size, item). */
  type Hit = (nat, Path)

  function HitSize(h: Hit): nat
  {
    h.0
  }

  /** Each file paired with its size. */
  function Pairs(n: Nodes, files: seq<Path>): (r: seq<Hit>)
    ensures |r| == |files|
    ensures forall i :: 0 <= i < |r| ==> r[i] == (SizeIn(n)(files[i]), files[i])
  {
    if files == [] then []
    else Pairs(n, files[..|files| - 1]) + [(SizeIn(n)(files[|files| - 1]), files[|files| - 1])]
  }

  /** large_files after the scanning loop, given the order of the walk. */
  function Hits(n: Nodes, listing: seq<Path>, minSize: int): seq<Hit>
  {
    Pairs(n, Filter(listing, LargeIn(n, minSize)))
  }

  /** The ranking order: larger sizes first. */
  predicate Bigger(a: Hit, b: Hit)
  {
    a.0 >= b.0
  }

  lemma BiggerOrder()
    ensures TotalPreorder(Bigger)
  {
  }

  /** The hits ranked by size, largest first; the sort is stable. */
  function Ranked(hits: seq<Hit>): (r: seq<Hit>)
    ensures SortedBy(r, Bigger) && multiset(r) == multiset(hits)
  {
    BiggerOrder();
    SortBy(hits, Bigger)
  }

  /** Each shown hit with its path relative to the folder. */
  function Display(root: Path, top: seq<Hit>): (r: seq<Hit>)
    ensures |r| == |top|
    ensures forall i :: 0 <= i < |r| ==> r[i] == (top[i].0, Relative(root, top[i].1))
  {
    if top == [] then [] else [(top[0].0, Relative(root, top[0].1))] + Display(root, top[1..])
  }

  datatype Report =
    | Failed                          // an exception reached the outer handler
    | NotFound(folder: string)        // the argument, as given
    | NoLargeFiles(minSizeMb: int)
    | LargeFiles(name: Name, minSizeMb: int, shown: seq<Hit>, total: nat, count: nat)
  {
    /** The "... and N more" line: the hits not shown, or 0 when there is no such line. */
    function More(): nat
      requires LargeFiles?
    {
      if count > ShownMax then count - ShownMax else 0
    }
  }

  /** find_large_files, given the order of the walk. */
  function Find(n: Nodes, env: Env, source: string, minSizeMb: int, listing: seq<Path>): Report
  {
    match ResolveFolder(source, env)
    case None => Failed
    case Some(p) =>
      var root := Location(p, env);
      if root !in n then NotFound(source)
      else
        var hits := Hits(n, listing, Threshold(minSizeMb));
        if hits == [] then NoLargeFiles(minSizeMb)
        else
          var top := Take(Ranked(hits), ShownMax);
          LargeFiles(PureName(p), minSizeMb, Display(root, top), SumBy(top, HitSize), |hits|)
  }

  /** The scanning loop: every walked file that reaches the threshold, with its size. */
  method Scan(n: Nodes, listing: seq<Path>, minSize: int) returns (hits: seq<Hit>)
    ensures hits == Hits(n, listing, minSize)
  {
    hits := [];
    var i := 0;
    while i < |listing|
      invariant 0 <= i <= |listing|
      invariant hits == Hits(n, listing[..i], minSize)
    {
      var item := listing[i];
      assert listing[..i + 1][..i] == listing[..i];
      if IsFile(n, item) {
        var size := n[item].size;
        if size >= minSize {
          var grown := Filter(listing[..i + 1], LargeIn(n, minSize));
          assert grown[..|grown| - 1] == Filter(listing[..i], LargeIn(n, minSize));
          hits := hits + [(size, item)];
        }
      }
      i := i + 1;
    }
    assert listing[..|listing|] == listing;
  }

  /** The total_size loop over the hits shown. */
  method AddSizes(top: seq<Hit>) returns (total: nat)
    ensures total == SumBy(top, HitSize)
  {
    total := 0;
    var i := 0;
    while i < |top|
      invariant 0 <= i <= |top|
      invariant total == SumBy(top[..i], HitSize)
    {
      SumByAppend(top[..i], [top[i]], HitSize);
      assert top[..i + 1] == top[..i] + [top[i]];
      total := total + top[i].0;
      i := i + 1;
    }
    assert top[..|top|] == top;
  }

  method FindLargeFiles(fs: FileSystem, env: Env, source: string, minSizeMb: int) returns (report: Report)
    requires fs.Valid()
    ensures exists listing :: IsListingOf(listing, Globbed(fs.nodes, source, env))
                              && report == Find(fs.nodes, env, source, minSizeMb, listing)
  {
    var resolved := ResolveFolder(source, env);
    if resolved.None? || Location(resolved.value, env) !in fs.nodes {
      report := if resolved.None? then Failed else NotFound(source);
      ListingExists(Globbed(fs.nodes, source, env));
      return;
    }
    var root := Location(resolved.value, env);
    var listing := fs.RGlob(root);
    var hits := Scan(fs.nodes, listing, Threshold(minSizeMb));
    if hits == [] {
      report := NoLargeFiles(minSizeMb);
    } else {
      var top := Take(Ranked(hits), ShownMax);
      var total := AddSizes(top);
      report := LargeFiles(PureName(resolved.value), minSizeMb, Display(root, top), total, |hits|);
    }
    assert report == Find(fs.nodes, env, source, minSizeMb, listing);
  }

  /** The hits are the walked files that reach the threshold, each once, with its size. */
  lemma HitsAreLargeFiles(n: Nodes, root: Path, listing: seq<Path>, minSize: int)
    requires IsListingOf(listing, Below(n, root))
    ensures var hits := Hits(n, listing, minSize);
      ListsLarge(n, LargeUnder(n, root, minSize), hits) && |hits| == |LargeUnder(n, root, minSize)|
  {
    var files := Filter(listing, LargeIn(n, minSize));
    var hits := Hits(n, listing, minSize);
    FilterNoDups(listing, LargeIn(n, minSize));
    NoDupsCardinality(files);
    assert (set x | x in files) == LargeUnder(n, root, minSize);
    forall i, j | 0 <= i < j < |hits| ensures hits[i] != hits[j] {
      assert hits[i].1 == files[i] && hits[j].1 == files[j];
    }
    forall h ensures h in hits <==> h.1 in LargeUnder(n, root, minSize) && h.1 in n && n[h.1].File? && h.0 == n[h.1].size {
      if h in hits {
        var i :| 0 <= i < |hits| && hits[i] == h;
        assert files[i] in files;
      }
      if h.1 in LargeUnder(n, root, minSize) && h.1 in n && n[h.1].File? && h.0 == n[h.1].size {
        assert h.1 in files;
        var i :| 0 <= i < |files| && files[i] == h.1;
        assert hits[i] == h;
      }
    }
  }

  /** The ranking keeps the hits, each once, largest first; a hit outside the first
      fifteen is no larger than any of them. */
  lemma TopFifteen(hits: seq<Hit>)
    requires NoDups(hits)
    ensures var r := Ranked(hits); var top := Take(r, ShownMax);
      && NoDups(r) && |r| == |hits| && (forall h :: h in r <==> h in hits)
      && (forall i, j :: 0 <= i < j < |top| ==> top[i].0 >= top[j].0)
      && forall h :: h in hits && h !in top ==> |top| == ShownMax && forall i :: 0 <= i < |top| ==> top[i].0 >= h.0
  {
    RankedKeeps(hits);
    TopOrdered(Ranked(hits));
    BeyondTop(Ranked(hits));
  }

  /** The ranking holds each hit once. */
  lemma RankedKeeps(hits: seq<Hit>)
    requires NoDups(hits)
    ensures var r := Ranked(hits); NoDups(r) && |r| == |hits| && forall h :: h in r <==> h in hits
  {
    BiggerOrder();
    SortByKeepsElements(hits, Bigger);
    PermutationNoDups(hits, Ranked(hits));
  }

  /** The first fifteen of a ranking are in ranking order. */
  lemma TopOrdered(r: seq<Hit>)
    requires SortedBy(r, Bigger)
    ensures var top := Take(r, ShownMax); forall i, j :: 0 <= i < j < |top| ==> top[i].0 >= top[j].0
  {
    var top := Take(r, ShownMax);
    forall i, j | 0 <= i < j < |top| ensures top[i].0 >= top[j].0 {
      assert top[i] == r[i] && top[j] == r[j] && Bigger(r[i], r[j]);
    }
  }

  /** A ranked hit outside the first fifteen is no larger than any of them, and then
      fifteen are shown. */
  lemma BeyondTop(r: seq<Hit>)
    requires SortedBy(r, Bigger)
    ensures var top := Take(r, ShownMax);
      forall h :: h in r && h !in top ==> |top| == ShownMax && forall i :: 0 <= i < |top| ==> top[i].0 >= h.0
  {
    var top := Take(r, ShownMax);
    forall h | h in r && h !in top ensures |top| == ShownMax && forall i :: 0 <= i < |top| ==> top[i].0 >= h.0 {
      var k :| 0 <= k < |r| && r[k] == h;
      assert forall i :: 0 <= i < |top| ==> top[i] == r[i] && top[i] in top;
      forall i | 0 <= i < |top| ensures top[i].0 >= h.0 {
        assert top[i] == r[i] && Bigger(r[i], r[k]);
      }
    }
  }

  /** A threshold of zero megabytes or less lets every file through. */
  lemma NonPositiveTakesAll(n: Nodes, root: Path, minSizeMb: int)
    requires minSizeMb <= 0
    ensures LargeUnder(n, root, Threshold(minSizeMb)) == FilesUnder(n, root)
  {
  }

  /** hits lists the files of large, each once, with its size. */
  ghost predicate ListsLarge(n: Nodes, large: set<Path>, hits: seq<Hit>)
  {
    NoDups(hits) && forall h :: h in hits <==> h.1 in large && h.1 in n && n[h.1].File? && h.0 == n[h.1].size
  }

  /** At most fifteen hits are shown, largest first, and the total is the sum of the
      sizes shown. */
  lemma ShownOrder(n: Nodes, root: Path, large: set<Path>, hits: seq<Hit>)
    requires ListsLarge(n, large, hits)
    ensures var top := Take(Ranked(hits), ShownMax); var shown := Display(root, top);
      && |shown| == (if |hits| <= ShownMax then |hits| else ShownMax)
      && SumBy(top, HitSize) == SumBy(shown, HitSize)
      && (forall i, j :: 0 <= i < j < |shown| ==> shown[i].0 >= shown[j].0)
  {
    var top := Take(Ranked(hits), ShownMax);
    TopFifteen(hits);
    SameSizes(top, Display(root, top));
  }

  /** Each shown line is a large file, with its size and relative path. */
  lemma ShownAreLarge(n: Nodes, root: Path, large: set<Path>, hits: seq<Hit>)
    requires ListsLarge(n, large, hits)
    ensures var shown := Display(root, Take(Ranked(hits), ShownMax));
      forall i :: 0 <= i < |shown| ==>
        exists f :: f in large && f in n && n[f].File? && shown[i] == (n[f].size, Relative(root, f))
  {
    var r := Ranked(hits);
    var top := Take(r, ShownMax);
    var shown := Display(root, top);
    TopFifteen(hits);
    forall i | 0 <= i < |shown|
      ensures exists f :: f in large && f in n && n[f].File? && shown[i] == (n[f].size, Relative(root, f))
    {
      assert top[i] in r;
      assert top[i].1 in large;
    }
  }

  /** A large file not shown is no larger than any shown, and only when fifteen are. */
  lemma ShownLargest(n: Nodes, root: Path, large: set<Path>, hits: seq<Hit>)
    requires ListsLarge(n, large, hits)
    ensures var shown := Display(root, Take(Ranked(hits), ShownMax));
      forall f :: f in large && f in n && n[f].File? && (forall i :: 0 <= i < |shown| ==> shown[i].1 != Relative(root, f))
        ==> |shown| == ShownMax && forall i :: 0 <= i < |shown| ==> shown[i].0 >= n[f].size
  {
    var top := Take(Ranked(hits), ShownMax);
    var shown := Display(root, top);
    TopFifteen(hits);
    forall f | f in large && f in n && n[f].File? && (forall i :: 0 <= i < |shown| ==> shown[i].1 != Relative(root, f))
      ensures |shown| == ShownMax && forall i :: 0 <= i < |shown| ==> shown[i].0 >= n[f].size
    {
      var h := (n[f].size, f);
      assert h in hits;
      assert forall i :: 0 <= i < |top| ==> top[i] != h;
    }
  }

  /** No file is shown twice: the shown lines have different relative paths. */
  lemma ShownDistinct(n: Nodes, root: Path, large: set<Path>, hits: seq<Hit>)
    requires ListsLarge(n, large, hits) && forall f :: f in large ==> AtOrBelow(f, root)
    ensures var shown := Display(root, Take(Ranked(hits), ShownMax));
      forall i, j :: 0 <= i < j < |shown| ==> shown[i].1 != shown[j].1
  {
    var r := Ranked(hits);
    var top := Take(r, ShownMax);
    var shown := Display(root, top);
    TopFifteen(hits);
    forall i, j | 0 <= i < j < |shown| ensures shown[i].1 != shown[j].1 {
      assert top[i] == r[i] && top[j] == r[j];
      assert top[i] in hits && top[j] in hits;
      assert top[i] != top[j];
      RelativeInjective(root, top[i].1, top[j].1);
    }
  }

  /** Showing a path differently keeps the sizes. */
  lemma {:induction false} SameSizes(top: seq<Hit>, shown: seq<Hit>)
    requires |top| == |shown| && forall i :: 0 <= i < |top| ==> top[i].0 == shown[i].0
    ensures SumBy(top, HitSize) == SumBy(shown, HitSize)
  {
    if top != [] {
      SameSizes(top[1..], shown[1..]);
    }
  }

  /** "Folder not found" is reported exactly when the folder does not exist, and "no large
      files" exactly when it exists and no file below it reaches the threshold. */
  lemma FindOutcome(n: Nodes, env: Env, source: string, minSizeMb: int, listing: seq<Path>)
    requires IsListingOf(listing, Globbed(n, source, env))
    ensures var r := Find(n, env, source, minSizeMb, listing);
      && (r.NotFound? <==> ResolveFolder(source, env).Some? && Location(ResolveFolder(source, env).value, env) !in n)
      && (r.NotFound? ==> r.folder == source)
      && (r.NoLargeFiles? <==>
            && ResolveFolder(source, env).Some? && Location(ResolveFolder(source, env).value, env) in n
            && LargeUnder(n, Location(ResolveFolder(source, env).value, env), Threshold(minSizeMb)) == {})
  {
    match ResolveFolder(source, env)
    case None =>
    case Some(p) =>
      var root := Location(p, env);
      if root in n {
        HitsAreLargeFiles(n, root, listing, Threshold(minSizeMb));
      }
  }

  /** What a report of large files promises about the set of large files below root: it
      counts them all and shows the largest fifteen, largest first, each once with its size
      and relative path, with the sum of the sizes shown; a large file not shown is no
      larger than any shown, and only when fifteen are. */
  ghost predicate ShowsLargest(n: Nodes, root: Path, large: set<Path>, r: Report)
    requires r.LargeFiles?
  {
    && r.count == |large| > 0
    && |r.shown| == (if r.count <= ShownMax then r.count else ShownMax)
    && r.More() == r.count - |r.shown|
    && r.total == SumBy(r.shown, HitSize)
    && (forall i, j :: 0 <= i < j < |r.shown| ==> r.shown[i].0 >= r.shown[j].0)
    && (forall i, j :: 0 <= i < j < |r.shown| ==> r.shown[i].1 != r.shown[j].1)
    && (forall i :: 0 <= i < |r.shown| ==>
          exists f :: f in large && f in n && n[f].File? && r.shown[i] == (n[f].size, Relative(root, f)))
    && forall f :: f in large && f in n && n[f].File? && (forall i :: 0 <= i < |r.shown| ==> r.shown[i].1 != Relative(root, f))
         ==> |r.shown| == ShownMax && forall i :: 0 <= i < |r.shown| ==> r.shown[i].0 >= n[f].size
  }

  /** The report built from a non-empty listing of the large files keeps that promise. */
  lemma ReportShowsLargest(n: Nodes, root: Path, name: Name, minSizeMb: int, large: set<Path>, hits: seq<Hit>)
    requires ListsLarge(n, large, hits) && |hits| == |large| && hits != []
    requires forall f :: f in large ==> AtOrBelow(f, root)
    ensures var top := Take(Ranked(hits), ShownMax);
      ShowsLargest(n, root, large, LargeFiles(name, minSizeMb, Display(root, top), SumBy(top, HitSize), |hits|))
  {
    ShownOrder(n, root, large, hits);
    ShownAreLarge(n, root, large, hits);
    ShownLargest(n, root, large, hits);
    ShownDistinct(n, root, large, hits);
  }

  /** The report of large files counts every file below the folder that reaches the
      threshold and shows the largest fifteen of them. */
  lemma FindShown(n: Nodes, env: Env, source: string, minSizeMb: int, listing: seq<Path>)
    requires IsListingOf(listing, Globbed(n, source, env))
    ensures var r := Find(n, env, source, minSizeMb, listing);
      r.LargeFiles? ==>
        var root := Location(ResolveFolder(source, env).value, env);
        ShowsLargest(n, root, LargeUnder(n, root, Threshold(minSizeMb)), r)
  {
    match ResolveFolder(source, env)
    case None =>
    case Some(p) =>
      var root := Location(p, env);
      var hits := Hits(n, listing, Threshold(minSizeMb));
      if root in n && hits != [] {
        HitsAreLargeFiles(n, root, listing, Threshold(minSizeMb));
        ReportShowsLargest(n, root, PureName(p), minSizeMb, LargeUnder(n, root, Threshold(minSizeMb)), hits);
      }
  }
}
