/**
 * get_folder_stats (support_bot/tools/desktop_tools.py:964-1030): one pass over the files
 * below a folder counts them, adds up their sizes, and keeps two tallies: per category
 * (a count and a size) and per lower-cased extension (a count). The categories are shown
 * largest first, and the five most frequent extensions.
 */
module FolderStats {
  import opened Seqs
  import opened Text
  import opened Wrappers
  import opened Paths
  import opened Grouping
  import opened Categories
  import opened FileSystems
  import opened Scanning

  /** The number of extensions shown. */
  const TopMax: nat := 5

  /** The extension key of a file without a suffix. */
  const NoExtension: string := "(no extension)"

  /** The extension key: the lower-cased suffix, or "(no extension)" when there is none. */
  function ExtensionKey(item: Path): (r: string)
    ensures r == NoExtension || (|r| >= 2 && r[0] == '.')
  {
    var ext := Lower(Suffix(PathName(item)));
    if ext == "" then NoExtension else ext
  }

  /** One entry of by_category: a number of files and their total size. */
  datatype Tally = Tally(count: nat, size: nat)

  /** by_category: a dict in insertion order. */
  type CategoryTable = seq<(string, Tally)>

  /** by_extension: a dict in insertion order. */
  type ExtensionTable = seq<(string, nat)>

  /** One file counted under its category: a known category gains a file and its size; a
      new one is added at the end with this file alone. */
  function AddFile(t: CategoryTable, k: string, size: nat): CategoryTable
  {
    if t == [] then [(k, Tally(1, size))]
    else if t[0].0 == k then [(k, Tally(t[0].1.count + 1, t[0].1.size + size))] + t[1..]
    else [t[0]] + AddFile(t[1..], k, size)
  }

  /** One file counted under its extension: a known extension gains a file; a new one is
      added at the end with a count of one. */
  function AddOne(t: ExtensionTable, k: string): ExtensionTable
  {
    if t == [] then [(k, 1)]
    else if t[0].0 == k then [(k, t[0].1 + 1)] + t[1..]
    else [t[0]] + AddOne(t[1..], k)
  }

  /** The reference definition of by_category: each group of files, in first-seen order,
      with its number of files and their total size. */
  function Tallies(g: Groups<string, Path>, size: Path -> nat): (r: CategoryTable)
    ensures |r| == |g|
    ensures forall i :: 0 <= i < |r| ==> r[i] == (g[i].0, Tally(|g[i].1|, SumBy(g[i].1, size)))
  {
    if g == [] then [] else [(g[0].0, Tally(|g[0].1|, SumBy(g[0].1, size)))] + Tallies(g[1..], size)
  }

  /** The reference definition of by_extension: each group with its number of files. */
  function Counts(g: Groups<string, Path>): (r: ExtensionTable)
    ensures |r| == |g|
    ensures forall i :: 0 <= i < |r| ==> r[i] == (g[i].0, |g[i].1|)
  {
    if g == [] then [] else [(g[0].0, |g[0].1|)] + Counts(g[1..])
  }

  /** Counting a file under its key is tallying the group it joins. */
  lemma {:induction false} AddFileTallies(g: Groups<string, Path>, k: string, v: Path, size: Path -> nat)
    ensures Tallies(AddTo(g, k, v), size) == AddFile(Tallies(g, size), k, size(v))
  {
    if g == [] {
      assert SumBy([v], size) == size(v) + SumBy([v][1..], size);
    } else {
      var t := Tallies(g, size);
      assert t == [t[0]] + Tallies(g[1..], size);
      if g[0].0 == k {
        AddFileTalliesFirst(g, k, v, size);
      } else {
        var added := [g[0]] + AddTo(g[1..], k, v);
        AddFileTallies(g[1..], k, v, size);
        assert AddTo(g, k, v) == added;
        assert added[1..] == AddTo(g[1..], k, v);
        assert Tallies(added, size) == [t[0]] + Tallies(AddTo(g[1..], k, v), size);
      }
    }
  }

  /** AddFileTallies when the file joins the first group. */
  lemma AddFileTalliesFirst(g: Groups<string, Path>, k: string, v: Path, size: Path -> nat)
    requires g != [] && g[0].0 == k
    ensures Tallies(AddTo(g, k, v), size) == AddFile(Tallies(g, size), k, size(v))
  {
    var t := Tallies(g, size);
    var added := [(k, g[0].1 + [v])] + g[1..];
    SumByAppend(g[0].1, [v], size);
    assert SumBy([v], size) == size(v) + SumBy([v][1..], size);
    assert AddTo(g, k, v) == added;
    assert added[1..] == g[1..];
    assert t[1..] == Tallies(g[1..], size);
    assert Tallies(added, size)[0] == (k, Tally(t[0].1.count + 1, t[0].1.size + size(v)));
  }

  lemma {:induction false} AddOneCounts(g: Groups<string, Path>, k: string, v: Path)
    ensures Counts(AddTo(g, k, v)) == AddOne(Counts(g), k)
  {
    if g == [] {
    } else if g[0].0 == k {
      var added := [(k, g[0].1 + [v])] + g[1..];
      assert AddTo(g, k, v) == added;
      assert added[1..] == g[1..];
      assert Counts(g)[1..] == Counts(g[1..]);
    } else {
      var added := [g[0]] + AddTo(g[1..], k, v);
      AddOneCounts(g[1..], k, v);
      assert AddTo(g, k, v) == added;
      assert added[1..] == AddTo(g[1..], k, v);
      assert Counts(g)[1..] == Counts(g[1..]);
    }
  }

  /** What the scanning loop leaves behind. */
  datatype Scan = Scan(totalFiles: nat, totalSize: nat, byCategory: CategoryTable, byExtension: ExtensionTable)

  /** The scanning loop's result, by its reference definitions, for the files walked. */
  function Scanned(n: Nodes, files: seq<Path>): Scan
  {
    Scan(|files|, SumBy(files, SizeIn(n)),
         Tallies(GroupAll(files, CategoryKey), SizeIn(n)), Counts(GroupAll(files, ExtensionKey)))
  }

  /** The scanning loop over the walked entries: each file is counted, its size added, and
      its category and extension tallied. */
  method ScanFiles(n: Nodes, listing: seq<Path>) returns (scan: Scan)
    ensures scan == Scanned(n, Filter(listing, FileIn(n)))
  {
    var totalFiles, totalSize := 0, 0;
    var byCategory: CategoryTable := [];
    var byExtension: ExtensionTable := [];
    var i := 0;
    ghost var files: seq<Path> := [];
    assert listing[..i] == [];
    while i < |listing|
      invariant 0 <= i <= |listing|
      invariant files == Filter(listing[..i], FileIn(n))
      invariant Scan(totalFiles, totalSize, byCategory, byExtension) == Scanned(n, files)
    {
      var item := listing[i];
      FilterPrefixStep(listing, i, FileIn(n));
      assert FileIn(n)(item) == IsFile(n, item);
      if IsFile(n, item) {
        totalFiles, totalSize, byCategory, byExtension := CountFile(n, files, item, totalFiles, totalSize, byCategory, byExtension);
        files := files + [item];
      }
      assert files == Filter(listing[..i + 1], FileIn(n));
      i := i + 1;
    }
    assert listing[..|listing|] == listing;
    scan := Scan(totalFiles, totalSize, byCategory, byExtension);
  }

  /** The body of the scanning loop for one walked file: count it, add its size, and tally
      its category and extension. */
  method CountFile(n: Nodes, ghost files: seq<Path>, item: Path, totalFiles: nat, totalSize: nat,
                   byCategory: CategoryTable, byExtension: ExtensionTable)
    returns (totalFiles': nat, totalSize': nat, byCategory': CategoryTable, byExtension': ExtensionTable)
    requires IsFile(n, item) && Scan(totalFiles, totalSize, byCategory, byExtension) == Scanned(n, files)
    ensures Scan(totalFiles', totalSize', byCategory', byExtension') == Scanned(n, files + [item])
  {
    ScanStep(n, files, item);
    totalFiles' := totalFiles + 1;
    var size := n[item].size;
    totalSize' := totalSize + size;
    var ext := ExtensionKey(item);
    var category := CategoryKey(item);
    byCategory' := AddFile(byCategory, category, size);
    byExtension' := AddOne(byExtension, ext);
  }

  /** One more file seen by the scanning loop. */
  lemma ScanStep(n: Nodes, files: seq<Path>, item: Path)
    requires IsFile(n, item)
    ensures var s := Scanned(n, files);
      Scanned(n, files + [item]) ==
        Scan(s.totalFiles + 1, s.totalSize + n[item].size,
             AddFile(s.byCategory, CategoryKey(item), n[item].size), AddOne(s.byExtension, ExtensionKey(item)))
  {
    SumByAppend(files, [item], SizeIn(n));
    assert SumBy([item], SizeIn(n)) == n[item].size + SumBy([item][1..], SizeIn(n));
    TalliesStep(files, item, CategoryKey, SizeIn(n));
    CountsStep(files, item, ExtensionKey);
  }

  /** One more file joins the tally of its key. */
  lemma TalliesStep(files: seq<Path>, item: Path, key: Path -> string, size: Path -> nat)
    ensures Tallies(GroupAll(files + [item], key), size) == AddFile(Tallies(GroupAll(files, key), size), key(item), size(item))
  {
    assert (files + [item])[..|files|] == files;
    AddFileTallies(GroupAll(files, key), key(item), item, size);
  }

  /** One more file joins the count of its key. */
  lemma CountsStep(files: seq<Path>, item: Path, key: Path -> string)
    ensures Counts(GroupAll(files + [item], key)) == AddOne(Counts(GroupAll(files, key)), key(item))
  {
    assert (files + [item])[..|files|] == files;
    AddOneCounts(GroupAll(files, key), key(item), item);
  }

  /** The order of the category lines: larger total size first. */
  predicate MoreBytes(a: (string, Tally), b: (string, Tally))
  {
    a.1.size >= b.1.size
  }

  /** The order of the extension lines: more files first. */
  predicate MoreFiles(a: (string, nat), b: (string, nat))
  {
    a.1 >= b.1
  }

  lemma StatsOrders()
    ensures TotalPreorder(MoreBytes) && TotalPreorder(MoreFiles)
  {
  }

  /** The category lines: by_category sorted by size, largest first; the sort is stable. */
  function ByBytes(t: CategoryTable): (r: CategoryTable)
    ensures SortedBy(r, MoreBytes) && multiset(r) == multiset(t)
  {
    StatsOrders();
    SortBy(t, MoreBytes)
  }

  /** The extension lines: by_extension sorted by count, largest first, cut to five. */
  function TopExtensions(t: ExtensionTable): (r: ExtensionTable)
    ensures |r| == if |t| <= TopMax then |t| else TopMax
  {
    StatsOrders();
    SortByKeepsElements(t, MoreFiles);
    Take(SortBy(t, MoreFiles), TopMax)
  }

  datatype Report =
    | Failed                          // an exception reached the outer handler
    | NotFound(folder: string)        // the argument, as given
    | Stats(name: Name, totalFiles: nat, totalSize: nat, categories: CategoryTable, extensions: ExtensionTable)

  /** get_folder_stats, given the order of the walk. */
  function Analyze(n: Nodes, env: Env, source: string, listing: seq<Path>): Report
  {
    match ResolveFolder(source, env)
    case None => Failed
    case Some(p) =>
      if Location(p, env) !in n then NotFound(source)
      else
        var s := Scanned(n, Filter(listing, FileIn(n)));
        Stats(PureName(p), s.totalFiles, s.totalSize, ByBytes(s.byCategory), TopExtensions(s.byExtension))
  }

  method GetFolderStats(fs: FileSystem, env: Env, source: string) returns (report: Report)
    requires fs.Valid()
    ensures exists listing :: IsListingOf(listing, Globbed(fs.nodes, source, env))
                              && report == Analyze(fs.nodes, env, source, listing)
  {
    var resolved := ResolveFolder(source, env);
    if resolved.None? || Location(resolved.value, env) !in fs.nodes {
      report := if resolved.None? then Failed else NotFound(source);
      ListingExists(Globbed(fs.nodes, source, env));
      return;
    }
    var listing := fs.RGlob(Location(resolved.value, env));
    var s := ScanFiles(fs.nodes, listing);
    report := Stats(PureName(resolved.value), s.totalFiles, s.totalSize, ByBytes(s.byCategory), TopExtensions(s.byExtension));
    assert report == Analyze(fs.nodes, env, source, listing);
  }

  function TallyCount(e: (string, Tally)): nat
  {
    e.1.count
  }

  function TallySize(e: (string, Tally)): nat
  {
    e.1.size
  }

  function EntryCount(e: (string, nat)): nat
  {
    e.1
  }

  /** by_category, as shown or not: each key once, each with the number and total size of
      the files of that key, every file's key present; the counts add up to the number of
      files and the sizes to their total size. */
  ghost predicate TalliesFiles(files: seq<Path>, key: Path -> string, size: Path -> nat, t: CategoryTable)
  {
    && (forall i, j :: 0 <= i < j < |t| ==> t[i].0 != t[j].0)
    && (forall i :: 0 <= i < |t| ==>
          t[i].1.count > 0 && t[i].1 == Tally(|Select(files, key, t[i].0)|, SumBy(Select(files, key, t[i].0), size)))
    && (forall f :: f in files ==> exists i :: 0 <= i < |t| && t[i].0 == key(f))
    && SumBy(t, TallyCount) == |files|
    && SumBy(t, TallySize) == SumBy(files, size)
  }

  /** by_extension: each key once, each with the number of files of that key, every
      file's key present; the counts add up to the number of files. */
  ghost predicate CountsFiles(files: seq<Path>, key: Path -> string, t: ExtensionTable)
  {
    && (forall i, j :: 0 <= i < j < |t| ==> t[i].0 != t[j].0)
    && (forall i :: 0 <= i < |t| ==> t[i].1 > 0 && t[i].1 == |Select(files, key, t[i].0)|)
    && (forall f :: f in files ==> exists i :: 0 <= i < |t| && t[i].0 == key(f))
    && SumBy(t, EntryCount) == |files|
  }

  lemma {:induction false} TalliesSums(g: Groups<string, Path>, size: Path -> nat)
    ensures SumBy(Tallies(g, size), TallyCount) == |Members(g)|
    ensures SumBy(Tallies(g, size), TallySize) == SumGroups(g, size)
  {
    if g != [] {
      TalliesSums(g[1..], size);
      assert Tallies(g, size)[1..] == Tallies(g[1..], size);
    }
  }

  lemma {:induction false} CountsSum(g: Groups<string, Path>)
    ensures SumBy(Counts(g), EntryCount) == |Members(g)|
  {
    if g != [] {
      CountsSum(g[1..]);
      assert Counts(g)[1..] == Counts(g[1..]);
    }
  }

  /** The number of members of a grouping is the number of items grouped. */
  lemma MembersLength(s: seq<Path>, key: Path -> string)
    ensures |Members(GroupAll(s, key))| == |s|
  {
    GroupAllMembers(s, key);
    assert |multiset(Members(GroupAll(s, key)))| == |multiset(s)|;
  }

  /** Each group of a grouping is the selection of its key, and every item's key has one. */
  lemma GroupsAreSelections(s: seq<Path>, key: Path -> string)
    ensures var g := GroupAll(s, key);
      && (forall i, j :: 0 <= i < j < |g| ==> g[i].0 != g[j].0)
      && (forall i :: 0 <= i < |g| ==> g[i].1 != [] && g[i].1 == Select(s, key, g[i].0))
      && (forall f :: f in s ==> exists i :: 0 <= i < |g| && g[i].0 == key(f))
  {
    var g := GroupAll(s, key);
    GroupAllSelect(s, key);
    forall i | 0 <= i < |g| ensures g[i].1 == Select(s, key, g[i].0) {
      LookupAt(g, i);
    }
    forall f | f in s ensures exists i :: 0 <= i < |g| && g[i].0 == key(f) {
      var j :| 0 <= j < |s| && s[j] == f;
      GroupAllKeys(s, key, key(f));
      var i :| 0 <= i < |Keys(g)| && Keys(g)[i] == key(f);
      assert g[i].0 == key(f);
    }
  }

  /** Each tally of a grouping counts and sums its key's selection, and every file's key
      has one. */
  lemma TalliesAreSelections(files: seq<Path>, key: Path -> string, size: Path -> nat)
    ensures var t := Tallies(GroupAll(files, key), size);
      && (forall i, j :: 0 <= i < j < |t| ==> t[i].0 != t[j].0)
      && (forall i :: 0 <= i < |t| ==>
            t[i].1.count > 0 && t[i].1 == Tally(|Select(files, key, t[i].0)|, SumBy(Select(files, key, t[i].0), size)))
      && (forall f :: f in files ==> exists i :: 0 <= i < |t| && t[i].0 == key(f))
  {
    var g := GroupAll(files, key);
    var t := Tallies(g, size);
    GroupsAreSelections(files, key);
    forall f | f in files ensures exists i :: 0 <= i < |t| && t[i].0 == key(f) {
      var i :| 0 <= i < |g| && g[i].0 == key(f);
      assert t[i].0 == key(f);
    }
  }

  /** The scanning loop's by_category tallies the files by category. */
  lemma ScannedTallies(files: seq<Path>, key: Path -> string, size: Path -> nat)
    ensures TalliesFiles(files, key, size, Tallies(GroupAll(files, key), size))
  {
    var g := GroupAll(files, key);
    TalliesAreSelections(files, key, size);
    TalliesSums(g, size);
    MembersLength(files, key);
    GroupAllSum(files, key, size);
  }

  /** The scanning loop's by_extension counts the files by extension. */
  lemma ScannedCounts(files: seq<Path>, key: Path -> string)
    ensures CountsFiles(files, key, Counts(GroupAll(files, key)))
  {
    var g := GroupAll(files, key);
    var t := Counts(g);
    GroupsAreSelections(files, key);
    CountsSum(g);
    MembersLength(files, key);
    forall f | f in files ensures exists i :: 0 <= i < |t| && t[i].0 == key(f) {
      var i :| 0 <= i < |g| && g[i].0 == key(f);
      assert t[i].0 == key(f);
    }
  }

  /** Reordering a tally, as the category lines do, keeps what it says. */
  lemma PermutedTallies(files: seq<Path>, key: Path -> string, size: Path -> nat, t: CategoryTable, r: CategoryTable)
    requires TalliesFiles(files, key, size, t) && multiset(r) == multiset(t)
    ensures TalliesFiles(files, key, size, r)
  {
    Reordered(t, r);
    assert forall i :: 0 <= i < |r| ==>
      r[i].1.count > 0 && r[i].1 == Tally(|Select(files, key, r[i].0)|, SumBy(Select(files, key, r[i].0), size))
    by {
      forall i | 0 <= i < |r|
        ensures r[i].1.count > 0 && r[i].1 == Tally(|Select(files, key, r[i].0)|, SumBy(Select(files, key, r[i].0), size))
      {
        assert r[i] in t;
      }
    }
    assert forall f :: f in files ==> exists i :: 0 <= i < |r| && r[i].0 == key(f) by {
      forall f | f in files ensures exists i :: 0 <= i < |r| && r[i].0 == key(f) {
        var a :| 0 <= a < |t| && t[a].0 == key(f);
        assert t[a] in r;
      }
    }
    SumByPermutation(t, r, TallyCount);
    SumByPermutation(t, r, TallySize);
  }

  /** The extensions shown: at most five, most frequent first, each key once with the
      number of its files; an extension left out is no more frequent than any shown, and
      only when five are shown. */
  ghost predicate MostFrequent(files: seq<Path>, key: Path -> string, top: ExtensionTable)
  {
    && |top| <= TopMax
    && (forall i, j :: 0 <= i < j < |top| ==> top[i].0 != top[j].0 && top[i].1 >= top[j].1)
    && (forall i :: 0 <= i < |top| ==> top[i].1 > 0 && top[i].1 == |Select(files, key, top[i].0)|)
    && forall f :: f in files && (forall i :: 0 <= i < |top| ==> top[i].0 != key(f))
         ==> |top| == TopMax && forall i :: 0 <= i < |top| ==> top[i].1 >= |Select(files, key, key(f))|
  }

  lemma TopExtensionsFrequent(files: seq<Path>, key: Path -> string, t: ExtensionTable)
    requires CountsFiles(files, key, t)
    ensures MostFrequent(files, key, TopExtensions(t))
  {
    StatsOrders();
    TopOfSorted(files, key, t, SortBy(t, MoreFiles));
  }

  /** The first five of any ordering of by_extension by falling count. */
  lemma TopOfSorted(files: seq<Path>, key: Path -> string, t: ExtensionTable, r: ExtensionTable)
    requires CountsFiles(files, key, t)
    requires SortedBy(r, MoreFiles) && multiset(r) == multiset(t)
    ensures MostFrequent(files, key, Take(r, TopMax))
  {
    SortedEntries(files, key, t, r);
    SortedLeftOut(files, key, t, r);
  }

  /** A reordering of a dict's items has the same items, each key once. */
  lemma Reordered<V>(t: seq<(string, V)>, r: seq<(string, V)>)
    requires forall i, j :: 0 <= i < j < |t| ==> t[i].0 != t[j].0
    requires multiset(r) == multiset(t)
    ensures forall i, j :: 0 <= i < j < |r| ==> r[i].0 != r[j].0
    ensures forall x :: x in r <==> x in t
  {
    assert NoDups(t) by {
      forall i, j | 0 <= i < j < |t| ensures t[i] != t[j] {
        assert t[i].0 != t[j].0;
      }
    }
    PermutationNoDups(t, r);
    forall x ensures x in r <==> x in t {
      assert x in r <==> x in multiset(r);
      assert x in t <==> x in multiset(t);
    }
    forall i, j | 0 <= i < j < |r| ensures r[i].0 != r[j].0 {
      assert r[i] in t && r[j] in t && r[i] != r[j];
      var a :| 0 <= a < |t| && t[a] == r[i];
      var b :| 0 <= b < |t| && t[b] == r[j];
      assert a != b;
    }
  }

  lemma SortedEntries(files: seq<Path>, key: Path -> string, t: ExtensionTable, r: ExtensionTable)
    requires CountsFiles(files, key, t)
    requires SortedBy(r, MoreFiles) && multiset(r) == multiset(t)
    ensures var top := Take(r, TopMax);
      && (forall i, j :: 0 <= i < j < |top| ==> top[i].0 != top[j].0 && top[i].1 >= top[j].1)
      && (forall i :: 0 <= i < |top| ==> top[i].1 > 0 && top[i].1 == |Select(files, key, top[i].0)|)
  {
    var top := Take(r, TopMax);
    Reordered(t, r);
    forall i, j | 0 <= i < j < |top| ensures top[i].0 != top[j].0 && top[i].1 >= top[j].1 {
      assert top[i] == r[i] && top[j] == r[j];
    }
    forall i | 0 <= i < |top| ensures top[i].1 > 0 && top[i].1 == |Select(files, key, top[i].0)| {
      assert top[i] == r[i] && r[i] in t;
    }
  }

  lemma SortedLeftOut(files: seq<Path>, key: Path -> string, t: ExtensionTable, r: ExtensionTable)
    requires CountsFiles(files, key, t)
    requires SortedBy(r, MoreFiles) && multiset(r) == multiset(t)
    ensures var top := Take(r, TopMax);
      forall f :: f in files && (forall i :: 0 <= i < |top| ==> top[i].0 != key(f))
        ==> |top| == TopMax && forall i :: 0 <= i < |top| ==> top[i].1 >= |Select(files, key, key(f))|
  {
    var top := Take(r, TopMax);
    Reordered(t, r);
    forall f | f in files && (forall i :: 0 <= i < |top| ==> top[i].0 != key(f))
      ensures |top| == TopMax && forall i :: 0 <= i < |top| ==> top[i].1 >= |Select(files, key, key(f))|
    {
      var a :| 0 <= a < |t| && t[a].0 == key(f);
      assert t[a] in r;
      var k :| 0 <= k < |r| && r[k] == t[a];
      EntryBeyondTop(r, k);
    }
  }

  /** An entry of a sorted table that is not among its first five comes after five entries
      with at least as many files. */
  lemma EntryBeyondTop(r: ExtensionTable, k: nat)
    requires SortedBy(r, MoreFiles) && k < |r|
    requires forall i, j :: 0 <= i < j < |r| ==> r[i].0 != r[j].0
    ensures var top := Take(r, TopMax);
      (forall i :: 0 <= i < |top| ==> top[i].0 != r[k].0)
        ==> |top| == TopMax && forall i :: 0 <= i < |top| ==> top[i].1 >= r[k].1
  {
    var top := Take(r, TopMax);
    if k < |top| {
      assert top[k] == r[k];
    } else {
      forall i | 0 <= i < |top| ensures top[i].1 >= r[k].1 {
        assert top[i] == r[i] && i < k;
        assert MoreFiles(r[i], r[k]);
      }
    }
  }

  /** The files of a walk of root list the files below root. */
  lemma WalkedFiles(n: Nodes, root: Path, listing: seq<Path>)
    requires IsListingOf(listing, Below(n, root))
    ensures IsListingOf(Filter(listing, FileIn(n)), FilesUnder(n, root))
    ensures |Filter(listing, FileIn(n))| == |FilesUnder(n, root)|
  {
    var files := Filter(listing, FileIn(n));
    FilterNoDups(listing, FileIn(n));
    NoDupsCardinality(files);
    assert (set x | x in files) == FilesUnder(n, root);
  }

  /** What the statistics promise about the files below root, walked as files: their
      number and total size, every category with its number and size of files, largest
      first, and the five most frequent extensions. */
  ghost predicate Describes(n: Nodes, root: Path, files: seq<Path>, r: Report)
    requires r.Stats?
  {
    && r.totalFiles == |FilesUnder(n, root)|
    && r.totalSize == SumBy(files, SizeIn(n))
    && TalliesFiles(files, CategoryKey, SizeIn(n), r.categories)
    && SortedBy(r.categories, MoreBytes)
    && MostFrequent(files, ExtensionKey, r.extensions)
  }

  /** "Folder not found" is reported exactly when the folder does not exist; otherwise the
      statistics describe the files below it. */
  lemma AnalyzeReports(n: Nodes, env: Env, source: string, listing: seq<Path>)
    requires IsListingOf(listing, Globbed(n, source, env))
    ensures var r := Analyze(n, env, source, listing);
      && (r.NotFound? <==> ResolveFolder(source, env).Some? && Location(ResolveFolder(source, env).value, env) !in n)
      && (r.NotFound? ==> r.folder == source)
      && (r.Failed? <==> ResolveFolder(source, env).None?)
      && (r.Stats? ==> Describes(n, Location(ResolveFolder(source, env).value, env), Filter(listing, FileIn(n)), r))
  {
    match ResolveFolder(source, env)
    case None =>
    case Some(p) =>
      var root := Location(p, env);
      if root in n {
        var files := Filter(listing, FileIn(n));
        var s := Scanned(n, files);
        WalkedFiles(n, root, listing);
        ScannedTallies(files, CategoryKey, SizeIn(n));
        PermutedTallies(files, CategoryKey, SizeIn(n), s.byCategory, ByBytes(s.byCategory));
        ScannedCounts(files, ExtensionKey);
        TopExtensionsFrequent(files, ExtensionKey, s.byExtension);
      }
  }

  /** The totals do not depend on the order of the walk. */
  lemma TotalsOrderIndependent(n: Nodes, env: Env, source: string, l1: seq<Path>, l2: seq<Path>)
    requires IsListingOf(l1, Globbed(n, source, env)) && IsListingOf(l2, Globbed(n, source, env))
    ensures var r1 := Analyze(n, env, source, l1); var r2 := Analyze(n, env, source, l2);
      r1.Stats? ==> r2.Stats? && r1.totalFiles == r2.totalFiles && r1.totalSize == r2.totalSize
  {
    match ResolveFolder(source, env)
    case None =>
    case Some(p) =>
      var root := Location(p, env);
      if root in n {
        WalkedFiles(n, root, l1);
        WalkedFiles(n, root, l2);
        var f1, f2 := Filter(l1, FileIn(n)), Filter(l2, FileIn(n));
        SameElementsPermutation(f1, f2);
        SumByPermutation(f1, f2, SizeIn(n));
      }
  }
}
