/**
 * organize_by_date (support_bot/tools/desktop_tools.py:733-808): the files directly inside
 * a folder are moved into "<year>/<MM> - <Month>" sub-folders of it, by the local date of
 * their last modification.
 */
module OrganizeByDate {
  import opened Text
  import opened Seqs
  import opened Wrappers
  import opened Paths
  import opened Grouping
  import opened FileSystems
  import opened Relocation
  import opened Scanning

  /** The full month names strftime writes for %B in the C locale. */
  const MonthNames: seq<string> := [
    "January", "February", "March", "April", "May", "June",
    "July", "August", "September", "October", "November", "December"
  ]

  /** The year folder: the year in decimal. */
  function YearFolder(year: nat): (r: Name)
    ensures '/' !in r && r != "" && r != "."
  {
    NatToString(year)
  }

  /** The month folder: the two-digit month, " - ", and the month's name. */
  function MonthFolder(month: Month): (r: Name)
    ensures '/' !in r && r != "" && r != "."
    ensures |r| >= 2 && r[..2] == TwoDigits(month)
  {
    assert forall k :: 0 <= k < 12 ==> '/' !in MonthNames[k];
    TwoDigits(month) + " - " + MonthNames[month - 1]
  }

  /** The date_folder string of a file: "<year>/<MM> - <Month>". */
  function DateKey(s: Stamp): string
  {
    YearFolder(s.year) + "/" + MonthFolder(s.month)
  }

  /** source_path / date_folder: the slash in the key makes two levels, the year folder
      and the month folder inside it. */
  lemma DateKeyParts(s: Stamp)
    ensures Components(Split(DateKey(s), '/')) == [YearFolder(s.year), MonthFolder(s.month)]
  {
    var y, m := YearFolder(s.year), MonthFolder(s.month);
    assert DateKey(s) == y + ['/'] + m;
    SplitField(y, m, '/');
    SplitField(m, [], '/');
    assert Components([y, m]) == [y] + Components([m]);
    assert Components([m]) == [m] + Components([]);
  }

  /** Two files share a date folder exactly when they were modified in the same month of
      the same year. */
  lemma DateKeyInjective(a: Stamp, b: Stamp)
    ensures DateKey(a) == DateKey(b) <==> a == b
  {
    if DateKey(a) == DateKey(b) {
      DateKeyParts(a);
      DateKeyParts(b);
      NatToStringInjective(a.year, b.year);
      assert TwoDigits(a.month) == TwoDigits(b.month);
      assert a.month / 10 == b.month / 10 && a.month % 10 == b.month % 10;
    }
  }

  /** The date_folder of a listed entry (only files are ever asked). */
  function DateOf(n: Nodes): Path -> string
  {
    item => if IsFile(n, item) then DateKey(n[item].modified) else ""
  }

  function VisibleIn(n: Nodes): Path -> bool
  {
    item => Visible(n, item)
  }

  /** files_by_date after the collecting loop. */
  function Plan(n: Nodes, listing: seq<Path>): Groups<string, Path>
  {
    GroupAll(Filter(listing, VisibleIn(n)), DateOf(n))
  }

  /** One line "<date_folder>: <n> files". */
  datatype DateCount = DateCount(folder: string, files: nat)

  datatype Report =
    | Failed                                   // an exception reached the outer handler
    | NotFound(folder: string)                 // the argument, as given
    | NothingToOrganize(name: Name)
    | Preview(name: Name, dates: seq<DateCount>)
    | Organized(name: Name, dates: seq<DateCount>, total: nat)

  datatype Stage =
    | Stop(report: Report)
    | Ready(name: Name, folder: Path, plan: Groups<string, Path>)

  function Prepare(n: Nodes, env: Env, source: string, listing: seq<Path>): Stage
  {
    match ResolveFolder(source, env)
    case None => Stop(Failed)
    case Some(p) => PrepareAt(n, env, source, p, listing)
  }

  /** The rest of Prepare, once the argument resolved to the pure path p. */
  function PrepareAt(n: Nodes, env: Env, source: string, p: PurePath, listing: seq<Path>): Stage
  {
    var folder := Location(p, env);
    if folder !in n then Stop(NotFound(source))
    else if !IsDir(n, folder) then Stop(Failed)
    else
      var groups := Plan(n, listing);
      if groups == [] then Stop(NothingToOrganize(PureName(p)))
      else Ready(PureName(p), folder, SortedGroups(groups))
  }

  /** One bucket per date: source_path / date_folder. */
  function Buckets(plan: Groups<string, Path>, folder: Path): (b: seq<Bucket>)
    ensures |b| == |plan|
    ensures forall i :: 0 <= i < |b| ==>
              b[i] == Bucket(plan[i].0, folder + Components(Split(plan[i].0, '/')), plan[i].1)
  {
    if plan == [] then []
    else [Bucket(plan[0].0, folder + Components(Split(plan[0].0, '/')), plan[0].1)] + Buckets(plan[1..], folder)
  }

  /** The date lines: each shows the number of its files, whether or not the moves went through. */
  function Counts(plan: Groups<string, Path>): (r: seq<DateCount>)
    ensures |r| == |plan| && forall i :: 0 <= i < |r| ==> r[i] == DateCount(plan[i].0, |plan[i].1|)
  {
    if plan == [] then [] else [DateCount(plan[0].0, |plan[0].1|)] + Counts(plan[1..])
  }

  /** organize_by_date, given the order in which the folder is listed: the report and the
      filesystem afterwards. A move that raises is passed over silently; a mkdir that
      raises ends the call. */
  function Organize(n: Nodes, env: Env, fails: set<Path>, source: string, previewOnly: bool, listing: seq<Path>)
    : (result: (Report, Nodes))
    ensures previewOnly ==> result.1 == n && !result.0.Organized?
    ensures result.0.NotFound? || result.0.NothingToOrganize? || result.0.Preview? ==> result.1 == n
    ensures Prepare(n, env, source, listing).Stop? ==> result.1 == n
    ensures result.0.NotFound? <==>
              ResolveFolder(source, env).Some? && Location(ResolveFolder(source, env).value, env) !in n
    ensures result.0.NotFound? ==> result.0.folder == source
  {
    match Prepare(n, env, source, listing)
    case Stop(report) => (report, n)
    case Ready(name, folder, plan) =>
      if previewOnly then (Preview(name, Counts(plan)), n)
      else
        var run := RunBuckets(n, Buckets(plan, folder), true, fails);
        (if run.completed then Organized(name, Counts(plan), CountMoved(Flatten(run.results))) else Failed, run.nodes)
  }

  /** Resolution, the existence check, the listing and the collecting loop. */
  method PrepareByDate(fs: FileSystem, env: Env, source: string) returns (stage: Stage)
    requires fs.Valid()
    ensures exists listing :: IsListingOf(listing, Listed(fs.nodes, source, env))
                              && stage == Prepare(fs.nodes, env, source, listing)
  {
    var resolved := ResolveFolder(source, env);
    if resolved.Some? && IsDir(fs.nodes, Location(resolved.value, env)) {
      var folder := Location(resolved.value, env);
      var listing := fs.IterDir(folder);
      var groups := Collect(listing, VisibleIn(fs.nodes), DateOf(fs.nodes));
      if groups == [] {
        stage := Stop(NothingToOrganize(PureName(resolved.value)));
      } else {
        stage := Ready(PureName(resolved.value), folder, SortedGroups(groups));
      }
      assert IsListingOf(listing, Listed(fs.nodes, source, env));
    } else {
      if resolved.None? {
        stage := Stop(Failed);
      } else if Location(resolved.value, env) !in fs.nodes {
        stage := Stop(NotFound(source));
      } else {
        stage := Stop(Failed);
      }
      NothingListedOutsideDirs(fs.nodes, source, env);
      assert IsListingOf([], Listed(fs.nodes, source, env));
      assert stage == Prepare(fs.nodes, env, source, []);
    }
  }

  method OrganizeFilesByDate(fs: FileSystem, env: Env, fails: set<Path>, source: string, previewOnly: bool)
    returns (report: Report)
    requires fs.Valid()
    modifies fs
    ensures fs.Valid()
    ensures exists listing :: IsListingOf(listing, Listed(old(fs.nodes), source, env))
                              && Organize(old(fs.nodes), env, fails, source, previewOnly, listing) == (report, fs.nodes)
  {
    var stage := PrepareByDate(fs, env, source);
    ghost var listing :| IsListingOf(listing, Listed(fs.nodes, source, env))
                         && stage == Prepare(fs.nodes, env, source, listing);
    if stage.Stop? {
      report := stage.report;
    } else if previewOnly {
      report := Preview(stage.name, Counts(stage.plan));
    } else {
      var results, completed := ExecuteBuckets(fs, Buckets(stage.plan, stage.folder), true, fails);
      if completed {
        report := Organized(stage.name, Counts(stage.plan), CountMoved(Flatten(results)));
      } else {
        report := Failed;
      }
    }
    assert Organize(old(fs.nodes), env, fails, source, previewOnly, listing) == (report, fs.nodes);
  }

  lemma ReadyFacts(n: Nodes, env: Env, source: string, listing: seq<Path>)
    requires Prepare(n, env, source, listing).Ready?
    ensures var st := Prepare(n, env, source, listing);
      && ResolveFolder(source, env).Some?
      && st.folder == Location(ResolveFolder(source, env).value, env) && IsDir(n, st.folder)
      && st.name == FolderName(source, env)
      && Plan(n, listing) != []
      && st.plan == SortedGroups(Plan(n, listing))
  {
    var p := ResolveFolder(source, env).value;
    assert Prepare(n, env, source, listing) == PrepareAt(n, env, source, p, listing);
  }

  lemma OrganizeReady(n: Nodes, env: Env, fails: set<Path>, source: string, previewOnly: bool, listing: seq<Path>)
    requires Prepare(n, env, source, listing).Ready?
    ensures var st := Prepare(n, env, source, listing);
      var run := RunBuckets(n, Buckets(st.plan, st.folder), true, fails);
      Organize(n, env, fails, source, previewOnly, listing)
        == if previewOnly then (Preview(st.name, Counts(st.plan)), n)
           else (if run.completed then Organized(st.name, Counts(st.plan), CountMoved(Flatten(run.results))) else Failed,
                 run.nodes)
  {
  }

  /** Every file of the plan is a file, in the group of its own modification month. */
  predicate Dated(n: Nodes, plan: Groups<string, Path>)
  {
    forall i, j :: 0 <= i < |plan| && 0 <= j < |plan[i].1| ==>
      IsFile(n, plan[i].1[j]) && plan[i].0 == DateKey(n[plan[i].1[j]].modified)
  }

  /** The sorted plan partitions the visible files of the listing by date folder: the date
      folders ascend and are distinct, each group holds exactly the visible files of that
      month in listing order, and every visible file is planned exactly once. */
  lemma PlanDates(n: Nodes, listing: seq<Path>)
    requires NoDups(listing) && forall x :: x in listing ==> x in n
    ensures var visible := Filter(listing, VisibleIn(n));
      var plan := SortedGroups(Plan(n, listing));
      && (forall i, j :: 0 <= i < j < |plan| ==> LexLe(plan[i].0, plan[j].0) && plan[i].0 != plan[j].0)
      && (forall i :: 0 <= i < |plan| ==> plan[i].1 != [] && plan[i].1 == Select(visible, DateOf(n), plan[i].0))
      && (forall x :: x in Members(plan) <==> x in listing && Visible(n, x))
      && NoDups(Members(plan))
      && |Members(plan)| == |visible|
      && Dated(n, plan)
  {
    var visible := Filter(listing, VisibleIn(n));
    var plan := SortedGroups(Plan(n, listing));
    SortedGroupAll(visible, DateOf(n));
    FilterNoDups(listing, VisibleIn(n));
    forall x ensures x in Members(plan) <==> x in visible {
      assert x in Members(plan) <==> x in multiset(Members(plan));
      assert x in visible <==> x in multiset(visible);
    }
    PermutationNoDups(visible, Members(plan));
    forall i, j | 0 <= i < |plan| && 0 <= j < |plan[i].1|
      ensures IsFile(n, plan[i].1[j]) && plan[i].0 == DateKey(n[plan[i].1[j]].modified)
    {
      var x := plan[i].1[j];
      assert x in visible && DateOf(n)(x) == plan[i].0;
    }
  }

  /** Two planned files share a date folder exactly when they were modified in the same
      month of the same year. */
  lemma SameFolderSameMonth(n: Nodes, listing: seq<Path>, i: nat, j: nat, x: Path, y: Path)
    requires NoDups(listing) && forall x :: x in listing ==> x in n
    requires var plan := SortedGroups(Plan(n, listing));
      i < |plan| && j < |plan| && x in plan[i].1 && y in plan[j].1
    ensures IsFile(n, x) && IsFile(n, y)
    ensures i == j <==> n[x].modified == n[y].modified
  {
    var plan := SortedGroups(Plan(n, listing));
    PlanDates(n, listing);
    var a :| 0 <= a < |plan[i].1| && plan[i].1[a] == x;
    var b :| 0 <= b < |plan[j].1| && plan[j].1[b] == y;
    DateKeyInjective(n[x].modified, n[y].modified);
    if i < j {
      assert plan[i].0 != plan[j].0;
    } else if j < i {
      assert plan[j].0 != plan[i].0;
    }
  }

  /** The files of the buckets are the members of the plan, in order. */
  lemma {:induction false} BucketFiles(plan: Groups<string, Path>, folder: Path)
    ensures AllFiles(Buckets(plan, folder)) == Members(plan)
  {
    if plan != [] {
      BucketFiles(plan[1..], folder);
      assert Buckets(plan, folder)[1..] == Buckets(plan[1..], folder);
    }
  }

  /** Every date folder lies two levels below the organized folder. */
  lemma BucketDepth(n: Nodes, plan: Groups<string, Path>, folder: Path)
    requires Dated(n, plan) && forall i :: 0 <= i < |plan| ==> plan[i].1 != []
    ensures forall i :: 0 <= i < |plan| ==> |Buckets(plan, folder)[i].folder| == |folder| + 2
  {
    forall i | 0 <= i < |plan| ensures |Buckets(plan, folder)[i].folder| == |folder| + 2 {
      var s := n[plan[i].1[0]].modified;
      assert plan[i].0 == DateKey(s);
      DateKeyParts(s);
    }
  }

  function FilesOf(c: DateCount): nat
  {
    c.files
  }

  /** The date lines add up to the number of planned files. */
  lemma {:induction false} CountsSum(plan: Groups<string, Path>)
    ensures SumBy(Counts(plan), FilesOf) == |Members(plan)|
  {
    if plan != [] {
      CountsSum(plan[1..]);
      assert Counts(plan)[1..] == Counts(plan[1..]);
    }
  }

  /** A completed run moved at most every planned file, and moved all of them exactly when
      none failed. */
  lemma RunAccounts(n: Nodes, plan: Groups<string, Path>, folder: Path, fails: set<Path>)
    ensures var run := RunBuckets(n, Buckets(plan, folder), true, fails);
      run.completed ==>
        && CountMoved(Flatten(run.results)) <= |Members(plan)|
        && (CountMoved(Flatten(run.results)) == |Members(plan)| <==> Failures(Flatten(run.results)) == [])
  {
    var buckets := Buckets(plan, folder);
    var run := RunBuckets(n, buckets, true, fails);
    if run.completed {
      RunLength(n, buckets, true, fails);
      BucketFiles(plan, folder);
      MovedPlusSkipped(Flatten(run.results));
    }
  }

  /** Preview and organization list the same date folders with the same counts: one line per
      month, ascending, each counting the visible files of that month (whether or not their
      moves went through), the lines adding up to the visible files of the listing; the
      total counts only the moves that went through. */
  lemma OrganizeAccounts(n: Nodes, env: Env, fails: set<Path>, source: string, previewOnly: bool, listing: seq<Path>)
    requires IsListingOf(listing, Listed(n, source, env))
    ensures var r := Organize(n, env, fails, source, previewOnly, listing).0;
      && (r.Preview? || r.Organized? ==>
            && r.name == FolderName(source, env)
            && SumBy(r.dates, FilesOf) == |Filter(listing, VisibleIn(n))|
            && (forall i, j :: 0 <= i < j < |r.dates| ==>
                  LexLe(r.dates[i].folder, r.dates[j].folder) && r.dates[i].folder != r.dates[j].folder)
            && forall i :: 0 <= i < |r.dates| ==> r.dates[i].files > 0)
      && (r.Organized? ==> r.total <= SumBy(r.dates, FilesOf))
  {
    var stage := Prepare(n, env, source, listing);
    if stage.Ready? {
      ReadyFacts(n, env, source, listing);
      OrganizeReady(n, env, fails, source, previewOnly, listing);
      DatesAccount(n, listing);
      CountsSum(stage.plan);
      RunAccounts(n, stage.plan, stage.folder, fails);
    }
  }

  /** The date lines of a listing's plan: ascending and distinct, each counting some files,
      together counting the visible files of the listing. */
  lemma DatesAccount(n: Nodes, listing: seq<Path>)
    requires NoDups(listing) && forall x :: x in listing ==> x in n
    ensures var dates := Counts(SortedGroups(Plan(n, listing)));
      && SumBy(dates, FilesOf) == |Filter(listing, VisibleIn(n))|
      && (forall i, j :: 0 <= i < j < |dates| ==>
            LexLe(dates[i].folder, dates[j].folder) && dates[i].folder != dates[j].folder)
      && forall i :: 0 <= i < |dates| ==> dates[i].files > 0
  {
    PlanDates(n, listing);
    CountsSum(SortedGroups(Plan(n, listing)));
  }

  /** The preview announces exactly the date lines an organization that goes through
      reports. */
  lemma PreviewMatches(n: Nodes, env: Env, fails: set<Path>, source: string, listing: seq<Path>)
    ensures var preview := Organize(n, env, fails, source, true, listing).0;
      var r := Organize(n, env, fails, source, false, listing).0;
      r.Organized? ==> preview == Preview(r.name, r.dates)
  {
    if Prepare(n, env, source, listing).Ready? {
      OrganizeReady(n, env, fails, source, true, listing);
      OrganizeReady(n, env, fails, source, false, listing);
    }
  }

  lemma AppendThree(d: Path, a: Name, b: Name, c: Name)
    ensures (d + [a, b]) + [c] == d + [a, b, c]
  {
  }

  /** A file the run moved sits, unchanged, in the folder of its month. */
  lemma MovedFileArrives(n: Nodes, plan: Groups<string, Path>, folder: Path, fails: set<Path>, f: Path)
    requires Dated(n, plan) && NoDups(Members(plan)) && forall x :: x in Members(plan) ==> x in n
    requires IsFile(n, f) && f in MovedSources(Flatten(RunBuckets(n, Buckets(plan, folder), true, fails).results))
    ensures var m := RunBuckets(n, Buckets(plan, folder), true, fails).nodes;
      var s := n[f].modified;
      exists t :: t in m && m[t] == n[f] && t == folder + [YearFolder(s.year), MonthFolder(s.month), PathName(t)]
                  && IsRenaming(PathName(f), PathName(t))
  {
    var buckets := Buckets(plan, folder);
    BucketFiles(plan, folder);
    MovedIntoBucket(n, buckets, true, fails, f);
    var m := RunBuckets(n, buckets, true, fails).nodes;
    var i, t :| 0 <= i < |buckets| && f in buckets[i].files && t in m && m[t] == n[f]
                && t == buckets[i].folder + [PathName(t)] && IsRenaming(PathName(f), PathName(t));
    var j :| 0 <= j < |plan[i].1| && plan[i].1[j] == f;
    var s := n[f].modified;
    assert plan[i].0 == DateKey(s);
    DateKeyParts(s);
    AppendThree(folder, YearFolder(s.year), MonthFolder(s.month), PathName(t));
  }

  /** Across a run of a dated, duplicate-free plan: nothing but the plan's files is touched,
      and each of them stays where it was, untouched, or now sits, unchanged, in the folder
      of its month under its own name or a collision name. */
  lemma RunDelivers(n: Nodes, plan: Groups<string, Path>, folder: Path, fails: set<Path>)
    requires Dated(n, plan) && NoDups(Members(plan)) && forall x :: x in Members(plan) ==> x in n && n[x].File?
    ensures var m := RunBuckets(n, Buckets(plan, folder), true, fails).nodes;
      && (forall q :: q in n && q !in Members(plan) ==> q in m && m[q] == n[q])
      && (forall f :: f in Members(plan) ==>
            || (f in m && m[f] == n[f])
            || exists t :: t in m && m[t] == n[f]
                           && t == folder + [YearFolder(n[f].modified.year), MonthFolder(n[f].modified.month), PathName(t)]
                           && IsRenaming(PathName(f), PathName(t)))
  {
    var buckets := Buckets(plan, folder);
    var run := RunBuckets(n, buckets, true, fails);
    BucketFiles(plan, folder);
    RunKeeps(n, buckets, true, fails);
    RunSources(n, buckets, true, fails);
    forall f | f in MovedSources(Flatten(run.results))
      ensures IsFile(n, f)
      ensures exists t :: t in run.nodes && run.nodes[t] == n[f]
                          && t == folder + [YearFolder(n[f].modified.year), MonthFolder(n[f].modified.month), PathName(t)]
                          && IsRenaming(PathName(f), PathName(t))
    {
      MovedFileArrives(n, plan, folder, fails, f);
    }
  }

  /** A visible entry of the listing is a file. */
  predicate VisibleFile(n: Nodes, f: Path)
  {
    IsFile(n, f) && !IsHidden(PathName(f))
  }

  /** The moves organize_by_date makes: none when it stops or only previews, otherwise
      those of the run of the plan into the date folders. */
  ghost function Moves(n: Nodes, env: Env, fails: set<Path>, source: string, previewOnly: bool, listing: seq<Path>)
    : seq<MoveResult>
  {
    match Prepare(n, env, source, listing)
    case Stop(_) => []
    case Ready(_, folder, plan) =>
      if previewOnly then [] else Flatten(RunBuckets(n, Buckets(plan, folder), true, fails).results)
  }

  /** Nothing but the visible files of the listing is touched, and every one of them either
      stays where it was, untouched, or now sits, with the same size and date, in
      "<year>/<MM> - <Month>" under the organized folder, under its own name or a collision
      name. The moves that went through are moves of visible files to pairwise distinct
      targets, each file arriving unchanged, and whatever was not moved stays as it was,
      so no file is lost or overwritten; and, a move that raises changing nothing, there
      are as many files as before. */
  lemma OrganizeDelivers(n: Nodes, env: Env, fails: set<Path>, source: string, previewOnly: bool, listing: seq<Path>)
    requires IsListingOf(listing, Listed(n, source, env))
    ensures var (r, m) := Organize(n, env, fails, source, previewOnly, listing);
      && (forall q :: q in n && !(q in listing && VisibleFile(n, q)) ==> q in m && m[q] == n[q])
      && (forall f :: f in listing && VisibleFile(n, f) ==>
            || (f in m && m[f] == n[f])
            || exists t :: t in m && m[t] == n[f] && ResolveFolder(source, env).Some?
                           && t == Location(ResolveFolder(source, env).value, env)
                                   + [YearFolder(n[f].modified.year), MonthFolder(n[f].modified.month), PathName(t)]
                           && IsRenaming(PathName(f), PathName(t)))
      && |FileEntries(m)| == |FileEntries(n)|
      && var rs := Moves(n, env, fails, source, previewOnly, listing);
        && DistinctTargets(rs) && Arrives(n, m, rs)
        && (forall q :: q in n && q !in MovedSources(rs) ==> q in m && m[q] == n[q])
        && (forall x :: x in MovedSources(rs) ==> x in listing && VisibleFile(n, x))
  {
    var stage := Prepare(n, env, source, listing);
    if stage.Ready? {
      ReadyFacts(n, env, source, listing);
      OrganizeReady(n, env, fails, source, previewOnly, listing);
      PlanDates(n, listing);
      assert forall x :: x in Members(stage.plan) <==> x in listing && VisibleFile(n, x);
      if !previewOnly {
        RunDelivers(n, stage.plan, stage.folder, fails);
        RunFileCount(n, Buckets(stage.plan, stage.folder), true, fails);
        BucketFiles(stage.plan, stage.folder);
        RunRelocates(n, Buckets(stage.plan, stage.folder), true, fails);
      }
    }
  }

  /** Organizing the folder a second time finds nothing to organize once a first run moved
      every planned file: the folder then holds only directories and hidden files. */
  lemma OrganizeIdempotent(n: Nodes, env: Env, fails: set<Path>, source: string, listing: seq<Path>,
                           fails2: set<Path>, previewOnly2: bool, listing2: seq<Path>)
    requires IsListingOf(listing, Listed(n, source, env))
    requires var r := Organize(n, env, fails, source, false, listing).0;
      r.Organized? && r.total == SumBy(r.dates, FilesOf)
    requires IsListingOf(listing2, Listed(Organize(n, env, fails, source, false, listing).1, source, env))
    ensures var m := Organize(n, env, fails, source, false, listing).1;
      Organize(m, env, fails2, source, previewOnly2, listing2) == (NothingToOrganize(FolderName(source, env)), m)
  {
    var stage := Prepare(n, env, source, listing);
    ReadyFacts(n, env, source, listing);
    OrganizeReady(n, env, fails, source, false, listing);
    var plan, loc := stage.plan, stage.folder;
    var buckets := Buckets(plan, loc);
    var run := RunBuckets(n, buckets, true, fails);
    var flat := Flatten(run.results);
    var m := run.nodes;
    assert Organize(n, env, fails, source, false, listing).1 == m;
    PlanDates(n, listing);
    CountsSum(plan);
    RunAccounts(n, plan, loc, fails);
    assert run.completed && Failures(flat) == [];
    BucketFiles(plan, loc);
    BucketDepth(n, plan, loc);
    RunKeeps(n, buckets, true, fails);
    RunSources(n, buckets, true, fails);
    RunOnlyTargets(n, buckets, true, fails);
    RunMovesAll(n, buckets, true, fails);
    RunTargetsDepth(n, buckets, true, fails, |loc| + 2);
    assert loc !in MovedSources(flat);
    assert IsDir(m, loc);
    assert Listed(m, source, env) == Children(m, loc);
    forall x | x in listing2 ensures !Visible(m, x) {
      assert x in m && |x| == |loc| + 1 && x[..|loc|] == loc;
      assert x !in Targets(flat);
      assert Visible(m, x) ==> x in n && x !in MovedSources(flat) && m[x] == n[x];
      assert Visible(m, x) ==> x in listing && Visible(n, x);
      assert Visible(m, x) ==> x in MovedSources(flat);
    }
    FilterNone(listing2, VisibleIn(m));
    assert Plan(m, listing2) == [];
  }
}
