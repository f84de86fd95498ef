/**
 * organize_files and preview_organization (support_bot/tools/desktop_tools.py:605-730):
 * the files directly inside a folder are sorted into one sub-folder per category of
 * FILE_CATEGORIES, inside the folder itself or inside a destination folder.
 *
 * The text the tool returns is modelled by the Report datatype: which of its forms is
 * produced, and every number and name it shows.
 */
module OrganizeByType {
  import opened Text
  import opened Seqs
  import opened Wrappers
  import opened Paths
  import opened Categories
  import opened Grouping
  import opened FileSystems
  import opened Relocation
  import opened Scanning

  /** The arguments of organize_files. The destination "" is falsy, exactly like None. */
  datatype Request = Request(source: string, createInSource: bool, destination: string, previewOnly: bool)

  /** One category of a preview: its size, the names of its first five files and how many
      more there are ("... and N more", 0 when nothing is elided). */
  datatype PreviewGroup = PreviewGroup(category: string, count: nat, shown: seq<Name>, more: nat)

  /** One line "<category>: <n> files moved". */
  datatype CategoryTotal = CategoryTotal(category: string, moved: nat)

  datatype Report =
    | Failed                                   // an exception reached the outer handler
    | NotFound(folder: string)                 // the argument, as given
    | AlreadyClean(name: Name)                 // nothing to organize in the folder
    | Preview(name: Name, groups: seq<PreviewGroup>)
    | Organized(name: Name, categories: seq<CategoryTotal>, total: nat, skipped: nat, skippedShown: seq<Name>)

  /** The collecting loop keeps a listed entry when it is neither a directory nor hidden,
      and the folder it was listed from is not itself named like a category. */
  predicate Candidate(n: Nodes, folderName: Name, item: Path)
  {
    Visible(n, item) && !IsCategoryName(folderName)
  }

  function Keep(n: Nodes, folderName: Name): Path -> bool
  {
    item => Candidate(n, folderName, item)
  }

  /** files_to_move after the collecting loop. */
  function Plan(n: Nodes, folderName: Name, listing: seq<Path>): Groups<string, Path>
  {
    GroupAll(Filter(listing, Keep(n, folderName)), CategoryKey)
  }

  /** dest_base: the source folder, or the destination when create_in_source is off and
      a destination is given; expanding "~user" of an unknown user raises (None). */
  function Destination(req: Request, source: PurePath, env: Env): Option<PurePath>
  {
    if req.createInSource then Some(source)
    else if req.destination != "" then ExpandUser(ParsePath(req.destination), env)
    else Some(source)
  }

  /** One bucket per category: dest_base / category. */
  function Buckets(plan: Groups<string, Path>, base: Path): (b: seq<Bucket>)
    ensures |b| == |plan|
    ensures forall i :: 0 <= i < |b| ==> b[i] == Bucket(plan[i].0, base + [plan[i].0], plan[i].1)
  {
    if plan == [] then [] else [Bucket(plan[0].0, base + [plan[0].0], plan[0].1)] + Buckets(plan[1..], base)
  }

  function PreviewOf(plan: Groups<string, Path>): (r: seq<PreviewGroup>)
    ensures |r| == |plan|
  {
    if plan == [] then []
    else
      var files := plan[0].1;
      [PreviewGroup(plan[0].0, |files|, NamesOf(Take(files, 5)), if |files| > 5 then |files| - 5 else 0)]
        + PreviewOf(plan[1..])
  }

  /** The per-category lines of the summary, one for each bucket the run went through. */
  function Totals(buckets: seq<Bucket>, results: seq<seq<MoveResult>>): seq<CategoryTotal>
  {
    if buckets == [] || results == [] then []
    else [CategoryTotal(buckets[0].key, CountMoved(results[0]))] + Totals(buckets[1..], results[1..])
  }

  /** The summary of a run: a mkdir that raises ends the call in the outer handler. */
  function Outcome(name: Name, buckets: seq<Bucket>, run: Run): (r: Report)
    ensures r.Failed? <==> !run.completed
    ensures r.Organized? ==> r.name == name && r.total == CountMoved(Flatten(run.results))
  {
    if !run.completed then Failed
    else
      var all := Flatten(run.results);
      var skipped := Failures(all);
      Organized(name, Totals(buckets, run.results), CountMoved(all), |skipped|, NamesOf(Take(skipped, 3)))
  }

  /** Where the call stands once the folder is listed: stopped with a report, or ready with
      the folder's name, its location, the destination base and the sorted plan. */
  datatype Stage =
    | Stop(report: Report)
    | Ready(name: Name, folder: Path, dest: Path, plan: Groups<string, Path>)

  function Prepare(n: Nodes, env: Env, req: Request, listing: seq<Path>): (st: Stage)
    ensures st.Stop? ==> st.report.Failed? || st.report.NotFound? || st.report.AlreadyClean?
  {
    match ResolveFolder(req.source, env)
    case None => Stop(Failed)
    case Some(source) => PrepareAt(n, env, req, source, listing)
  }

  /** The rest of Prepare, once the argument resolved to the pure path source. */
  function PrepareAt(n: Nodes, env: Env, req: Request, source: PurePath, listing: seq<Path>): (st: Stage)
    ensures st.Stop? ==> st.report.Failed? || st.report.NotFound? || st.report.AlreadyClean?
  {
    var folder := Location(source, env);
    if folder !in n then Stop(NotFound(req.source))
    else match Destination(req, source, env)
      case None => Stop(Failed)
      case Some(dest) =>
        if !IsDir(n, folder) then Stop(Failed)
        else
          var groups := Plan(n, PureName(source), listing);
          if groups == [] then Stop(AlreadyClean(PureName(source)))
          else Ready(PureName(source), folder, Location(dest, env), SortedGroups(groups))
  }

  /** organize_files, given the order in which the folder is listed: the report and the
      filesystem afterwards. */
  function Organize(n: Nodes, env: Env, fails: set<Path>, req: Request, listing: seq<Path>): (result: (Report, Nodes))
    ensures req.previewOnly ==> result.1 == n && !result.0.Organized?
    ensures result.0.NotFound? || result.0.AlreadyClean? || result.0.Preview? ==> result.1 == n
    ensures Prepare(n, env, req, listing).Stop? ==> result.1 == n
    ensures result.0.NotFound? <==>
              ResolveFolder(req.source, env).Some? && Location(ResolveFolder(req.source, env).value, env) !in n
    ensures result.0.NotFound? ==> result.0.folder == req.source
  {
    match Prepare(n, env, req, listing)
    case Stop(report) => (report, n)
    case Ready(name, _, dest, plan) =>
      if req.previewOnly then (Preview(name, PreviewOf(plan)), n)
      else
        var buckets := Buckets(plan, dest);
        var run := RunBuckets(n, buckets, false, fails);
        (Outcome(name, buckets, run), run.nodes)
  }

  /** Everything up to the plan: resolution, the existence check, dest_base, the listing
      and the collecting loop. */
  method PrepareOrganization(fs: FileSystem, env: Env, req: Request) returns (stage: Stage)
    requires fs.Valid()
    ensures exists listing :: IsListingOf(listing, Listed(fs.nodes, req.source, env))
                              && stage == Prepare(fs.nodes, env, req, listing)
  {
    var resolved := ResolveFolder(req.source, env);
    if resolved.Some? && IsDir(fs.nodes, Location(resolved.value, env))
       && Destination(req, resolved.value, env).Some? {
      var source := resolved.value;
      var folder := Location(source, env);
      var listing := fs.IterDir(folder);
      var groups := Collect(listing, Keep(fs.nodes, PureName(source)), CategoryKey);
      if groups == [] {
        stage := Stop(AlreadyClean(PureName(source)));
      } else {
        stage := Ready(PureName(source), folder, Location(Destination(req, source, env).value, env), SortedGroups(groups));
      }
      assert IsListingOf(listing, Listed(fs.nodes, req.source, env));
    } else {
      if resolved.None? {
        stage := Stop(Failed);
      } else if Location(resolved.value, env) !in fs.nodes {
        stage := Stop(NotFound(req.source));
      } else {
        stage := Stop(Failed);
      }
      ListingExists(Listed(fs.nodes, req.source, env));
      ghost var listing :| IsListingOf(listing, Listed(fs.nodes, req.source, env));
      assert stage == Prepare(fs.nodes, env, req, listing);
    }
  }

  method OrganizeFiles(fs: FileSystem, env: Env, fails: set<Path>, req: Request) returns (report: Report)
    requires fs.Valid()
    modifies fs
    ensures fs.Valid()
    ensures exists listing :: IsListingOf(listing, Listed(old(fs.nodes), req.source, env))
                              && Organize(old(fs.nodes), env, fails, req, listing) == (report, fs.nodes)
  {
    var stage := PrepareOrganization(fs, env, req);
    ghost var listing :| IsListingOf(listing, Listed(fs.nodes, req.source, env))
                         && stage == Prepare(fs.nodes, env, req, listing);
    if stage.Stop? {
      report := stage.report;
    } else if req.previewOnly {
      report := Preview(stage.name, PreviewOf(stage.plan));
    } else {
      var buckets := Buckets(stage.plan, stage.dest);
      var results, completed := ExecuteBuckets(fs, buckets, false, fails);
      report := Outcome(stage.name, buckets, Run(results, completed, fs.nodes));
    }
    assert Organize(old(fs.nodes), env, fails, req, listing) == (report, fs.nodes);
  }

  /** preview_organization(source_folder): organize_files with preview_only=True and the
      other arguments at their defaults. Nothing on disk changes. */
  method PreviewOrganization(fs: FileSystem, env: Env, source: string) returns (report: Report)
    requires fs.Valid()
    ensures exists listing :: IsListingOf(listing, Listed(fs.nodes, source, env))
                              && Organize(fs.nodes, env, {}, Request(source, true, "", true), listing) == (report, fs.nodes)
  {
    var req := Request(source, true, "", true);
    var stage := PrepareOrganization(fs, env, req);
    if stage.Stop? {
      report := stage.report;
    } else {
      report := Preview(stage.name, PreviewOf(stage.plan));
    }
  }

  /** The location of dest_base, when the argument and the destination resolve. */
  function DestBase(req: Request, env: Env): Option<Path>
  {
    match ResolveFolder(req.source, env)
    case None => None
    case Some(p) =>
      match Destination(req, p, env)
      case None => None
      case Some(d) => Some(Location(d, env))
  }

  lemma ReadyFacts(n: Nodes, env: Env, req: Request, listing: seq<Path>)
    requires Prepare(n, env, req, listing).Ready?
    ensures var st := Prepare(n, env, req, listing);
      && ResolveFolder(req.source, env).Some?
      && st.folder == Location(ResolveFolder(req.source, env).value, env) && IsDir(n, st.folder)
      && st.name == FolderName(req.source, env)
      && DestBase(req, env) == Some(st.dest)
      && Plan(n, st.name, listing) != []
      && st.plan == SortedGroups(Plan(n, st.name, listing))
  {
    var source := ResolveFolder(req.source, env).value;
    assert Prepare(n, env, req, listing) == PrepareAt(n, env, req, source, listing);
  }

  /** The files of the buckets are the members of the plan, in order. */
  lemma {:induction false} BucketFiles(plan: Groups<string, Path>, base: Path)
    ensures AllFiles(Buckets(plan, base)) == Members(plan)
  {
    if plan != [] {
      BucketFiles(plan[1..], base);
      assert Buckets(plan, base)[1..] == Buckets(plan[1..], base);
    }
  }

  /** The sorted plan partitions the candidates of the listing by category: categories
      ascend and are distinct, each holds exactly the candidates of that category in
      listing order, and every candidate is planned exactly once. */
  lemma PlanClassifies(n: Nodes, folderName: Name, listing: seq<Path>)
    requires NoDups(listing)
    ensures var candidates := Filter(listing, Keep(n, folderName));
      var plan := SortedGroups(Plan(n, folderName, listing));
      && (forall i, j :: 0 <= i < j < |plan| ==> LexLe(plan[i].0, plan[j].0) && plan[i].0 != plan[j].0)
      && (forall i :: 0 <= i < |plan| ==> plan[i].1 != [] && plan[i].1 == Select(candidates, CategoryKey, plan[i].0))
      && (forall x :: x in Members(plan) <==> x in listing && Candidate(n, folderName, x))
      && NoDups(Members(plan))
  {
    SortedGroupAll(Filter(listing, Keep(n, folderName)), CategoryKey);
    FilterNoDups(listing, Keep(n, folderName));
    var candidates := Filter(listing, Keep(n, folderName));
    var plan := SortedGroups(Plan(n, folderName, listing));
    forall x ensures x in Members(plan) <==> x in candidates {
      assert x in Members(plan) <==> x in multiset(Members(plan));
      assert x in candidates <==> x in multiset(candidates);
    }
    PermutationNoDups(candidates, Members(plan));
  }


  function MovedOf(t: CategoryTotal): nat
  {
    t.moved
  }

  /** The category lines of a completed run, one per bucket, add up to the total. */
  lemma {:induction false} TotalsSum(buckets: seq<Bucket>, results: seq<seq<MoveResult>>)
    requires |buckets| == |results|
    ensures |Totals(buckets, results)| == |results|
    ensures forall i :: 0 <= i < |results| ==>
              Totals(buckets, results)[i] == CategoryTotal(buckets[i].key, CountMoved(results[i]))
    ensures SumBy(Totals(buckets, results), MovedOf) == CountMoved(Flatten(results))
  {
    if results != [] {
      TotalsSum(buckets[1..], results[1..]);
      CountMovedConcat(results[0], Flatten(results[1..]));
    }
  }

  /** Every file of the plan sits in the bucket of its own category. */
  predicate Classified(plan: Groups<string, Path>)
  {
    forall i, j :: 0 <= i < |plan| && 0 <= j < |plan[i].1| ==> CategoryKey(plan[i].1[j]) == plan[i].0
  }

  /** The plan of a listing is classified, and its members are the candidates. */
  lemma PlanFacts(n: Nodes, folderName: Name, listing: seq<Path>)
    requires NoDups(listing)
    ensures var plan := SortedGroups(Plan(n, folderName, listing));
      && Classified(plan)
      && |Members(plan)| == |Filter(listing, Keep(n, folderName))|
      && (forall x :: x in Members(plan) <==> x in listing && Candidate(n, folderName, x))
      && NoDups(Members(plan))
  {
    PlanClassifies(n, folderName, listing);
    SortedGroupAll(Filter(listing, Keep(n, folderName)), CategoryKey);
  }


  /** The report of a completed run accounts for every file of the plan. */
  lemma RunAccounts(n: Nodes, name: Name, plan: Groups<string, Path>, dest: Path, fails: set<Path>)
    ensures var buckets := Buckets(plan, dest);
      var r := Outcome(name, buckets, RunBuckets(n, buckets, false, fails));
      r.Organized? ==>
        && r.total + r.skipped == |Members(plan)|
        && SumBy(r.categories, MovedOf) == r.total
        && |r.skippedShown| == (if r.skipped <= 3 then r.skipped else 3)
        && |r.categories| == |plan|
        && forall i :: 0 <= i < |plan| ==> r.categories[i].category == plan[i].0
  {
    var buckets := Buckets(plan, dest);
    var run := RunBuckets(n, buckets, false, fails);
    if run.completed {
      RunShape(n, buckets, false, fails);
      RunLength(n, buckets, false, fails);
      BucketFiles(plan, dest);
      MovedPlusSkipped(Flatten(run.results));
      TotalsSum(buckets, run.results);
    }
  }

  lemma OrganizeReady(n: Nodes, env: Env, fails: set<Path>, req: Request, listing: seq<Path>)
    requires Prepare(n, env, req, listing).Ready?
    ensures var st := Prepare(n, env, req, listing);
      var buckets := Buckets(st.plan, st.dest);
      var run := RunBuckets(n, buckets, false, fails);
      Organize(n, env, fails, req, listing)
        == if req.previewOnly then (Preview(st.name, PreviewOf(st.plan)), n) else (Outcome(st.name, buckets, run), run.nodes)
  {
  }

  /** Every planned file is accounted for: moved or skipped; the category lines add up to
      the total; at most three skipped files are named; categories ascend. */
  lemma OrganizeAccounts(n: Nodes, env: Env, fails: set<Path>, req: Request, listing: seq<Path>)
    requires NoDups(listing)
    ensures var (r, m) := Organize(n, env, fails, req, listing);
      r.Organized? ==>
        && r.total + r.skipped == |Filter(listing, Keep(n, r.name))|
        && SumBy(r.categories, MovedOf) == r.total
        && |r.skippedShown| == (if r.skipped <= 3 then r.skipped else 3)
        && forall i, j :: 0 <= i < j < |r.categories| ==>
             LexLe(r.categories[i].category, r.categories[j].category)
             && r.categories[i].category != r.categories[j].category
  {
    var stage := Prepare(n, env, req, listing);
    if stage.Ready? && !req.previewOnly {
      ReadyFacts(n, env, req, listing);
      OrganizeReady(n, env, fails, req, listing);
      var buckets := Buckets(stage.plan, stage.dest);
      var r := Outcome(stage.name, buckets, RunBuckets(n, buckets, false, fails));
      assert Organize(n, env, fails, req, listing).0 == r;
      if r.Organized? {
        assert r.name == stage.name;
        PlanFacts(n, stage.name, listing);
        PlanClassifies(n, stage.name, listing);
        RunAccounts(n, stage.name, stage.plan, stage.dest, fails);
      }
    }
  }


  /** Across a run of a classified, duplicate-free plan of present entries: nothing but the
      plan's files is touched, and each of them stays where it was, untouched, or now sits,
      unchanged, in the folder of its category under its own name or a collision name. */
  lemma RunDelivers(n: Nodes, plan: Groups<string, Path>, dest: Path, fails: set<Path>)
    requires Classified(plan) && NoDups(Members(plan)) && forall x :: x in Members(plan) ==> x in n
    ensures var m := RunBuckets(n, Buckets(plan, dest), false, fails).nodes;
      && (forall q :: q in n && q !in Members(plan) ==> q in m && m[q] == n[q])
      && (forall f :: f in Members(plan) ==>
            || (f in m && m[f] == n[f])
            || exists t :: t in m && m[t] == n[f] && t == dest + [CategoryKey(f), PathName(t)]
                           && IsRenaming(PathName(f), PathName(t)))
  {
    var buckets := Buckets(plan, dest);
    var run := RunBuckets(n, buckets, false, fails);
    BucketFiles(plan, dest);
    RunKeeps(n, buckets, false, fails);
    RunSources(n, buckets, false, fails);
    forall f | f in MovedSources(Flatten(run.results))
      ensures exists t :: t in run.nodes && run.nodes[t] == n[f] && t == dest + [CategoryKey(f), PathName(t)]
                          && IsRenaming(PathName(f), PathName(t))
    {
      MovedFileArrives(n, plan, dest, fails, f);
    }
  }

  lemma AppendTwo(d: Path, a: Name, b: Name)
    ensures (d + [a]) + [b] == d + [a, b]
  {
  }

  /** A file the run moved sits, unchanged, in the folder of its category. */
  lemma MovedFileArrives(n: Nodes, plan: Groups<string, Path>, dest: Path, fails: set<Path>, f: Path)
    requires Classified(plan) && NoDups(Members(plan)) && forall x :: x in Members(plan) ==> x in n
    requires f in n && f in MovedSources(Flatten(RunBuckets(n, Buckets(plan, dest), false, fails).results))
    ensures var m := RunBuckets(n, Buckets(plan, dest), false, fails).nodes;
      exists t :: t in m && m[t] == n[f] && t == dest + [CategoryKey(f), PathName(t)]
                  && IsRenaming(PathName(f), PathName(t))
  {
    var buckets := Buckets(plan, dest);
    BucketFiles(plan, dest);
    MovedIntoBucket(n, buckets, false, fails, f);
    var m := RunBuckets(n, buckets, false, fails).nodes;
    var i, t :| 0 <= i < |buckets| && f in buckets[i].files && t in m && m[t] == n[f]
                && t == buckets[i].folder + [PathName(t)] && IsRenaming(PathName(f), PathName(t));
    var j :| 0 <= j < |plan[i].1| && plan[i].1[j] == f;
    assert CategoryKey(f) == plan[i].0;
    AppendTwo(dest, plan[i].0, PathName(t));
  }


  /** The moves organize_files makes: none when it stops or only previews, otherwise
      those of the run of the plan into the category folders. */
  ghost function Moves(n: Nodes, env: Env, fails: set<Path>, req: Request, listing: seq<Path>): seq<MoveResult>
  {
    match Prepare(n, env, req, listing)
    case Stop(_) => []
    case Ready(_, _, dest, plan) =>
      if req.previewOnly then [] else Flatten(RunBuckets(n, Buckets(plan, dest), false, fails).results)
  }

  /** Nothing but the candidates of the listing is touched, and every candidate either
      stays where it was, untouched, or now sits, with the same size and date, in the
      folder of its category under the destination base, under its own name or a
      collision name. The moves that went through are moves of candidates to pairwise
      distinct targets, each file arriving unchanged, and whatever was not moved stays as
      it was, so no file is lost or overwritten; and, a move that raises changing
      nothing, there are as many files as before. */
  lemma OrganizeDelivers(n: Nodes, env: Env, fails: set<Path>, req: Request, listing: seq<Path>)
    requires WellFormed(n) && IsListingOf(listing, Listed(n, req.source, env))
    ensures var (r, m) := Organize(n, env, fails, req, listing);
      var name := FolderName(req.source, env);
      && (forall q :: q in n && !(q in listing && Candidate(n, name, q)) ==> q in m && m[q] == n[q])
      && (forall f :: f in listing && Candidate(n, name, f) ==>
            || (f in m && m[f] == n[f])
            || exists t :: t in m && m[t] == n[f] && DestBase(req, env).Some?
                           && t == DestBase(req, env).value + [CategoryKey(f), PathName(t)]
                           && IsRenaming(PathName(f), PathName(t)))
      && |FileEntries(m)| == |FileEntries(n)|
      && var rs := Moves(n, env, fails, req, listing);
        && DistinctTargets(rs) && Arrives(n, m, rs)
        && (forall q :: q in n && q !in MovedSources(rs) ==> q in m && m[q] == n[q])
        && (forall x :: x in MovedSources(rs) ==> x in listing && Candidate(n, name, x))
  {
    var stage := Prepare(n, env, req, listing);
    if stage.Ready? {
      ReadyFacts(n, env, req, listing);
      OrganizeReady(n, env, fails, req, listing);
      PlanFacts(n, stage.name, listing);
      RunDelivers(n, stage.plan, stage.dest, fails);
      RunFileCount(n, Buckets(stage.plan, stage.dest), false, fails);
      BucketFiles(stage.plan, stage.dest);
      RunRelocates(n, Buckets(stage.plan, stage.dest), false, fails);
    }
  }

  /** Once a run of the plan of a folder into category folders inside it moved every
      planned file, the folder is still a directory and none of its entries is a
      candidate any more. */
  lemma RunLeavesNoCandidate(n: Nodes, name: Name, listing: seq<Path>, plan: Groups<string, Path>,
                             loc: Path, fails: set<Path>)
    requires IsDir(n, loc) && IsListingOf(listing, Children(n, loc))
    requires forall x :: x in Members(plan) <==> x in listing && Candidate(n, name, x)
    ensures var run := RunBuckets(n, Buckets(plan, loc), false, fails);
      run.completed && Failures(Flatten(run.results)) == [] ==>
        && IsDir(run.nodes, loc)
        && forall x :: x in Children(run.nodes, loc) ==> !Candidate(run.nodes, name, x)
  {
    var buckets := Buckets(plan, loc);
    var run := RunBuckets(n, buckets, false, fails);
    var flat := Flatten(run.results);
    var m := run.nodes;
    if run.completed && Failures(flat) == [] {
      BucketFiles(plan, loc);
      RunKeeps(n, buckets, false, fails);
      RunSources(n, buckets, false, fails);
      RunOnlyTargets(n, buckets, false, fails);
      RunMovesAll(n, buckets, false, fails);
      RunTargetsDepth(n, buckets, false, fails, |loc| + 1);
      assert loc !in MovedSources(flat);
      forall x | x in Children(m, loc) ensures !Candidate(m, name, x) {
        assert x !in Targets(flat);
        if x in n && x !in MovedSources(flat) && m[x] == n[x] {
          assert x in listing;
          assert Candidate(n, name, x) ==> x in Members(plan);
        }
      }
    }
  }

  /** A ready stage of a call that organizes the folder itself. */
  lemma ReadyInSource(n: Nodes, env: Env, req: Request, listing: seq<Path>)
    requires Prepare(n, env, req, listing).Ready? && req.createInSource
    ensures var st := Prepare(n, env, req, listing);
      && st.dest == st.folder && IsDir(n, st.folder)
      && Listed(n, req.source, env) == Children(n, st.folder)
      && st.plan == SortedGroups(Plan(n, st.name, listing))
  {
    var source := ResolveFolder(req.source, env).value;
    var folder := Location(source, env);
    assert Prepare(n, env, req, listing) == PrepareAt(n, env, req, source, listing);
    assert Destination(req, source, env) == Some(source);
    assert Listed(n, req.source, env) == Children(n, folder);
    assert PrepareAt(n, env, req, source, listing)
        == Ready(PureName(source), folder, folder, SortedGroups(Plan(n, PureName(source), listing)));
  }

  /** After a first run that skipped nothing, the folder is still a directory and lists
      no candidate. */
  lemma FirstRunEmpties(n: Nodes, env: Env, fails: set<Path>, req: Request, listing: seq<Path>)
    requires IsListingOf(listing, Listed(n, req.source, env))
    requires req.createInSource && !req.previewOnly
    requires Organize(n, env, fails, req, listing).0.Organized? && Organize(n, env, fails, req, listing).0.skipped == 0
    ensures Prepare(n, env, req, listing).Ready?
    ensures var st := Prepare(n, env, req, listing);
      var m := Organize(n, env, fails, req, listing).1;
      && IsDir(m, st.folder)
      && forall x :: x in Children(m, st.folder) ==> !Candidate(m, st.name, x)
  {
    var stage := Prepare(n, env, req, listing);
    ReadyInSource(n, env, req, listing);
    OrganizeReady(n, env, fails, req, listing);
    var run := RunBuckets(n, Buckets(stage.plan, stage.folder), false, fails);
    assert run.completed && Failures(Flatten(run.results)) == [];
    PlanMembers(n, stage.name, listing);
    RunLeavesNoCandidate(n, stage.name, listing, stage.plan, stage.folder, fails);
  }

  /** Organizing the folder itself a second time finds nothing to do once a first run
      moved every planned file: the folder now holds only directories, hidden files and
      nothing else. */
  lemma OrganizeIdempotent(n: Nodes, env: Env, fails: set<Path>, req: Request, listing: seq<Path>,
                           fails2: set<Path>, listing2: seq<Path>)
    requires IsListingOf(listing, Listed(n, req.source, env))
    requires req.createInSource && !req.previewOnly
    requires Organize(n, env, fails, req, listing).0.Organized? && Organize(n, env, fails, req, listing).0.skipped == 0
    requires IsListingOf(listing2, Listed(Organize(n, env, fails, req, listing).1, req.source, env))
    ensures var m := Organize(n, env, fails, req, listing).1;
      Organize(m, env, fails2, req, listing2) == (AlreadyClean(FolderName(req.source, env)), m)
  {
    FirstRunEmpties(n, env, fails, req, listing);
    ReadyFacts(n, env, req, listing);
    var m := Organize(n, env, fails, req, listing).1;
    assert Listed(m, req.source, env) == Children(m, Location(ResolveFolder(req.source, env).value, env));
    OrganizeFindsNothing(m, env, fails2, req, listing2);
  }

  /** The members of the sorted plan are the candidates of the listing. */
  lemma PlanMembers(n: Nodes, folderName: Name, listing: seq<Path>)
    requires NoDups(listing)
    ensures forall x :: x in Members(SortedGroups(Plan(n, folderName, listing))) <==> x in listing && Candidate(n, folderName, x)
  {
    PlanClassifies(n, folderName, listing);
  }

  /** A folder that is a directory and lists no candidate is reported clean, untouched. */
  lemma OrganizeFindsNothing(m: Nodes, env: Env, fails: set<Path>, req: Request, listing: seq<Path>)
    requires ResolveFolder(req.source, env).Some? && DestBase(req, env).Some?
    requires IsDir(m, Location(ResolveFolder(req.source, env).value, env))
    requires forall x :: x in listing ==> !Candidate(m, FolderName(req.source, env), x)
    ensures Organize(m, env, fails, req, listing) == (AlreadyClean(FolderName(req.source, env)), m)
  {
    FilterNone(listing, Keep(m, FolderName(req.source, env)));
  }

  /** A folder named like a category is never organized: the check meant to skip files
      already sorted into a category folder looks at the folder being organized, so it
      skips every entry. */
  lemma CategoryFolderIsLeftAlone(n: Nodes, env: Env, fails: set<Path>, req: Request, listing: seq<Path>)
    requires IsCategoryName(FolderName(req.source, env))
    ensures var (r, m) := Organize(n, env, fails, req, listing);
      m == n && !r.Organized? && !r.Preview?
  {
    FilterNone(listing, Keep(n, FolderName(req.source, env)));
  }

  /** The symbolic folder "documents", in any spelling, stands for ~/Documents, whose name
      is the category Documents: organize_files on it never moves anything. */
  lemma DocumentsIsLeftAlone(n: Nodes, env: Env, fails: set<Path>, req: Request, listing: seq<Path>)
    requires Strip(Lower(req.source)) == "documents"
    ensures var (r, m) := Organize(n, env, fails, req, listing);
      m == n && !r.Organized? && !r.Preview?
  {
    DocumentsName(req.source, env);
    assert IsCategoryName("Documents");
    CategoryFolderIsLeftAlone(n, env, fails, req, listing);
  }

  function CountOf(g: PreviewGroup): nat
  {
    g.count
  }

  lemma {:induction false} PreviewOfFacts(plan: Groups<string, Path>)
    requires forall i :: 0 <= i < |plan| ==> plan[i].1 != []
    ensures var groups := PreviewOf(plan);
      && SumBy(groups, CountOf) == |Members(plan)|
      && forall i :: 0 <= i < |groups| ==>
           && groups[i].category == plan[i].0 && groups[i].count == |plan[i].1| > 0
           && |groups[i].shown| == (if groups[i].count <= 5 then groups[i].count else 5)
           && groups[i].shown == NamesOf(plan[i].1[..|groups[i].shown|])
           && groups[i].count == |groups[i].shown| + groups[i].more
  {
    if plan != [] {
      PreviewOfFacts(plan[1..]);
    }
  }

  /** What a preview promises about the candidates of a listing: the sizes add up to
      their number, categories ascend and are distinct, and each entry shows its first
      five names at most and counts the rest. */
  ghost predicate PreviewMatches(n: Nodes, name: Name, listing: seq<Path>, groups: seq<PreviewGroup>)
  {
    && SumBy(groups, CountOf) == |Filter(listing, Keep(n, name))|
    && (forall i, j :: 0 <= i < j < |groups| ==>
          LexLe(groups[i].category, groups[j].category) && groups[i].category != groups[j].category)
    && forall i :: 0 <= i < |groups| ==>
         && groups[i].count > 0 && groups[i].count == |groups[i].shown| + groups[i].more
         && |groups[i].shown| == (if groups[i].count <= 5 then groups[i].count else 5)
  }

  /** The preview of the sorted plan of a listing. */
  lemma PreviewOfPlan(n: Nodes, name: Name, listing: seq<Path>)
    requires NoDups(listing)
    ensures PreviewMatches(n, name, listing, PreviewOf(SortedGroups(Plan(n, name, listing))))
  {
    var plan := SortedGroups(Plan(n, name, listing));
    PlanFacts(n, name, listing);
    PlanClassifies(n, name, listing);
    PreviewOfFacts(plan);
  }

  /** A preview lists each category of the plan once, in ascending order, with its size,
      the names of its first five files and the number left out; the sizes add up to the
      number of candidates. */
  lemma PreviewShowsPlan(n: Nodes, env: Env, fails: set<Path>, req: Request, listing: seq<Path>)
    requires NoDups(listing)
    ensures var r := Organize(n, env, fails, req, listing).0;
      r.Preview? ==> PreviewMatches(n, r.name, listing, r.groups)
  {
    var stage := Prepare(n, env, req, listing);
    if stage.Ready? {
      ReadyFacts(n, env, req, listing);
      OrganizeReady(n, env, fails, req, listing);
      PreviewOfPlan(n, stage.name, listing);
    }
  }
}
