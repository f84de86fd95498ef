# File organisation engine of the desktop tools

This project models the file-organisation tools of the support bot's desktop toolset
(`support_bot/tools/desktop_tools.py`, lines 569-1030). The model covers these pieces:

- the extension table `FILE_CATEGORIES` and `get_file_category`;
- the symbolic folder names of `COMMON_FOLDERS` and the folder resolution block that
  opens every tool;
- `organize_files` and `preview_organization`, which sort the files of a folder into one
  sub-folder per category;
- `organize_by_date`, which sorts them into `<year>/<MM> - <Month>` sub-folders;
- `cleanup_empty_folders`, the bottom-up removal of empty directories;
- the three read-only analyses: `find_duplicates`, `find_large_files` and
  `get_folder_stats`.

The filesystem is a map from locations (sequences of names below "/") to nodes. A node
is a directory or a file. A file carries its size in bytes and the local year and month
of its last modification. The class `FileSystems.FileSystem` holds that map. Its methods
stand for the operating-system calls the tools make: `iterdir`, `rglob("*")`,
`os.walk(topdown=False)`, `mkdir`, `shutil.move` and `rmdir`.

The operating system may list a folder in any order. Each tool is therefore a method
whose postcondition says this: there is a listing of the right set of entries, and the
report and the new filesystem are what a pure function of the old filesystem and that
listing gives. The properties are lemmas about those functions. The function's name is
the tool's name in the model's own terms:

| Tool | Function |
|---|---|
| `organize_files` | `OrganizeByType.Organize` |
| `organize_by_date` | `OrganizeByDate.Organize` |
| `cleanup_empty_folders` | `Cleanup.Clean` |
| `find_duplicates` | `Duplicates.Find` |
| `find_large_files` | `LargeFiles.Find` |
| `get_folder_stats` | `FolderStats.Analyze` |

Two kinds of failure come from outside the map: a `shutil.move` that raises and an
`rmdir` that raises. Each is given by an explicit set of failing paths. A failing
`mkdir` follows from the map itself: it fails when the path or one of its ancestors is a
file, or, without `parents=True`, when its parent is missing.

The text a tool returns is modelled by a `Report` datatype per tool. The datatype keeps
which outcome was reported, every number in the text, and every name and relative path
the text lists.

Modules:

| Module | Contents |
|---|---|
| `Text` | ASCII lower-casing, `str.strip`, decimal rendering and string order |
| `Wrappers` | `Option` |
| `Seqs` | `Filter`, `Take`, `SumBy` and the stable sort `SortBy` that stands for `sorted` and `list.sort` |
| `Categories` | The extension table |
| `Paths` | Names, suffixes, collision names, path parsing and folder resolution |
| `FileSystems` | The map and the OS calls |
| `Scanning` | What `iterdir` and `rglob` list |
| `Grouping` | Dictionaries of lists, in insertion order |
| `Relocation` | The shared mkdir-and-move loop of both organizers |
| `OrganizeByType`, `OrganizeByDate`, `Cleanup`, `Duplicates`, `LargeFiles`, `FolderStats` | One module per tool |

## Model

| member | source | states |
|---|---|---|
| Text.Lower | support_bot/tools/desktop_tools.py:598 | lower-casing keeps the length and maps each character on its own |
| Text.LowerIdempotent | support_bot/tools/desktop_tools.py:624 | lower-casing twice is lower-casing once |
| Text.StripLeft | support_bot/tools/desktop_tools.py:624 | the result is a suffix of the input that does not start with whitespace |
| Text.StripRight | support_bot/tools/desktop_tools.py:624 | the result is a prefix of the input that does not end with whitespace |
| Text.StripIsTrimmedSlice | support_bot/tools/desktop_tools.py:624 | strip returns a slice of the input that has no whitespace at either end, and everything cut off is whitespace |
| Text.StripKeeps | support_bot/tools/desktop_tools.py:624 | a string without whitespace at either end is not changed by strip |
| Text.LowerCharKeepsNonSpace | support_bot/tools/desktop_tools.py:624 | lower-casing turns no character into whitespace |
| Text.StripIdempotent | support_bot/tools/desktop_tools.py:624 | stripping twice is stripping once |
| Text.NatToString | support_bot/tools/desktop_tools.py:763 | the year is written as non-empty decimal digits without a leading zero |
| Text.DecimalValueOfNatToString | support_bot/tools/desktop_tools.py:763 | reading the written year back gives the year |
| Text.NatToStringInjective | support_bot/tools/desktop_tools.py:763 | different years get different year folders |
| Text.TwoDigits | support_bot/tools/desktop_tools.py:763 | %m writes exactly two digits |
| Text.LexLeTotal | support_bot/tools/desktop_tools.py:671 | any two keys can be compared in the order `sorted` uses |
| Text.LexLeTransitive | support_bot/tools/desktop_tools.py:671 | that order is transitive |
| Text.LexLeAntisymmetric | support_bot/tools/desktop_tools.py:671 | two keys that are in order both ways are equal |
| Seqs.Take | support_bot/tools/desktop_tools.py:676 | a slice `[:k]` is the prefix of length min(length, k) |
| Seqs.Filter | support_bot/tools/desktop_tools.py:645-657 | the result holds exactly the elements that pass the test |
| Seqs.Retain | support_bot/tools/desktop_tools.py:884-887 | the loop that collects the passing elements computes Filter |
| Seqs.SortBy | support_bot/tools/desktop_tools.py:671 | `sorted` returns its input in order for a total preorder |
| Seqs.InsertBy | support_bot/tools/desktop_tools.py:671 | inserting into a sorted sequence keeps it sorted |
| Seqs.SortByKeepsElements | support_bot/tools/desktop_tools.py:671 | `sorted` returns a permutation of its input |
| Seqs.PermutationNoDups | support_bot/tools/desktop_tools.py:671 | a permutation of a list without repeats has no repeats |
| Seqs.SameElementsPermutation | support_bot/tools/desktop_tools.py:989 | two listings of the same set without repeats are permutations of each other |
| Seqs.SumByPermutation | support_bot/tools/desktop_tools.py:993 | a sum does not depend on the order of its terms |
| Seqs.SumByAppend | support_bot/tools/desktop_tools.py:993 | the sum over a concatenation is the sum of the two sums |
| Seqs.FilterNone | support_bot/tools/desktop_tools.py:659-660 | when nothing passes the test, nothing is kept |
| Seqs.FilterNoDups | support_bot/tools/desktop_tools.py:645-657 | filtering a listing without repeats gives a list without repeats |
| Seqs.NoDupsCardinality | support_bot/tools/desktop_tools.py:956 | a list without repeats is as long as the set of its elements |
| Categories.NamesMatchTable | support_bot/tools/desktop_tools.py:572-583 | the category names are the table's keys, in the table's order |
| Categories.FirstIndex | support_bot/tools/desktop_tools.py:599-602 | the scan from position i stops at the first entry that lists the extension, or at the end when none does |
| Categories.CategoryAt | support_bot/tools/desktop_tools.py:599-602 | in a table with distinct names other than "Other", the scan answers entry j's name exactly when j is the first entry listing the extension, and "Other" exactly when none lists it |
| Categories.CategoryOf | support_bot/tools/desktop_tools.py:596-602 | every extension maps to a category of the table or to "Other" |
| Categories.CategoryOfFirstMatch | support_bot/tools/desktop_tools.py:599-601 | an extension gets a category exactly when that category lists the lower-cased extension and no earlier one does |
| Categories.CategoryIgnoresCase | support_bot/tools/desktop_tools.py:598 | the case of the extension does not matter |
| Categories.JsonIsCode | support_bot/tools/desktop_tools.py:578-582 | ".JSON" is Code, not Data: the first matching category wins |
| Categories.XmlIsCode | support_bot/tools/desktop_tools.py:578-582 | ".xml" is Code, not Data |
| Categories.CsvIsDocuments | support_bot/tools/desktop_tools.py:573-582 | ".csv" is Documents, not Data |
| Categories.NoSuffixIsOther | support_bot/tools/desktop_tools.py:602 | a file without a suffix is Other |
| Paths.NamesOf | support_bot/tools/desktop_tools.py:677 | one `.name` per file, in order |
| Paths.Parent | support_bot/tools/desktop_tools.py:651 | `.parent` drops the last component |
| Paths.RFind | support_bot/tools/desktop_tools.py:654 | the last position of the character, or -1 when it does not occur |
| Paths.Suffix | support_bot/tools/desktop_tools.py:654 | `.suffix` is empty or a dot followed by at least one character and no further dot |
| Paths.StemSuffixSplit | support_bot/tools/desktop_tools.py:690-691 | stem followed by suffix is the name |
| Paths.SuffixExamples | support_bot/tools/desktop_tools.py:654 | the suffix of "a.tar.gz" is ".gz" and its stem "a.tar"; the suffix keeps its case; ".bashrc", "notes." and "README" have no suffix |
| Paths.CollisionNameFresh | support_bot/tools/desktop_tools.py:694 | a collision name differs from the original name, and different counters give different names |
| Paths.CollisionNameExample | support_bot/tools/desktop_tools.py:694 | "a.txt" becomes "a_1.txt": the counter goes between stem and suffix |
| Paths.CollisionNameLastSuffix | support_bot/tools/desktop_tools.py:694 | "a.tar.gz" becomes "a.tar_1.gz": only the last suffix is kept apart |
| Paths.CollisionNameNoSuffix | support_bot/tools/desktop_tools.py:694 | "notes" becomes "notes_12": a name without a suffix gains the counter at its end |
| Paths.Split | support_bot/tools/desktop_tools.py:763 | a split yields at least one piece and no piece holds the separator |
| Paths.SplitField | support_bot/tools/desktop_tools.py:763 | a year followed by the separator and a month name splits into those two |
| Paths.SplitJoin | support_bot/tools/desktop_tools.py:784 | joining the pieces of a split gives the string back |
| Paths.Components | support_bot/tools/desktop_tools.py:628 | a path keeps only non-empty components other than "." |
| Paths.ParsePath | support_bot/tools/desktop_tools.py:628 | no component of a parsed path is empty, "." or holds a slash |
| Paths.SymbolicSpellings | support_bot/tools/desktop_tools.py:624-626 | two spellings of a symbolic name with the same trimmed, lower-cased key resolve alike, to an absolute path naming that folder directly under the home directory, and report the same folder name |
| Paths.DocumentsName | support_bot/tools/desktop_tools.py:586-593 | every spelling of "documents" names the folder Documents |
| Paths.LowerExample | support_bot/tools/desktop_tools.py:624 | " DownLoads\n" lower-cases to " downloads\n" |
| Paths.StripExample | support_bot/tools/desktop_tools.py:624 | " downloads\n" strips to "downloads", the key of ~/Downloads |
| Paths.CommonFolderKeys | support_bot/tools/desktop_tools.py:586-593 | every symbolic name has at least five characters and no slash |
| Paths.ShortNotCommon | support_bot/tools/desktop_tools.py:586-593 | a key shorter than five characters is not symbolic |
| Paths.NoSlashNotCommon | support_bot/tools/desktop_tools.py:586-593 | a key holding a slash is not symbolic |
| Paths.SlashIsNotSymbolic | support_bot/tools/desktop_tools.py:624-628 | an argument with a slash inside is never a symbolic folder name |
| Paths.ParseHomeChild | support_bot/tools/desktop_tools.py:628 | "~/name/" parses to the relative path ["~", name] |
| Paths.ResolveHomeChild | support_bot/tools/desktop_tools.py:628 | "~/name/" resolves to the home directory's child |
| Paths.ParseDot | support_bot/tools/desktop_tools.py:628 | "." parses to the empty relative path |
| Paths.ResolveDotExample | support_bot/tools/desktop_tools.py:628 | "." resolves to the working directory and its name is "" |
| Grouping.Keys | support_bot/tools/desktop_tools.py:671 | the keys of a dictionary of lists, in insertion order |
| Grouping.AddTo | support_bot/tools/desktop_tools.py:655-657 | appending to a key's list keeps the existing keys in place and adds a new key at the end |
| Grouping.Select | support_bot/tools/desktop_tools.py:655-657 | the reference definition of a key's list: the elements of the input with that key, in input order |
| Grouping.AddToLookup | support_bot/tools/desktop_tools.py:655-657 | after appending, the key's list has the new element at its end and every other list is unchanged |
| Grouping.AddToProper | support_bot/tools/desktop_tools.py:655-657 | appending keeps the keys distinct and the lists non-empty |
| Grouping.LookupAt | support_bot/tools/desktop_tools.py:671 | each entry holds the list of its own key |
| Grouping.LookupKeys | support_bot/tools/desktop_tools.py:655 | a key is present exactly when its list is non-empty |
| Grouping.GroupAllSelect | support_bot/tools/desktop_tools.py:642-657 | the collecting loop gives each key exactly the elements with that key, in listing order |
| Grouping.GroupAllKeys | support_bot/tools/desktop_tools.py:642-657 | a key is present exactly when some element has it |
| Grouping.SelectEmpty | support_bot/tools/desktop_tools.py:655 | a key's list is empty exactly when no element has the key |
| Grouping.GroupAllAt | support_bot/tools/desktop_tools.py:671 | every entry of the collected dictionary is the selection of its key |
| Grouping.AddToSum | support_bot/tools/desktop_tools.py:1001 | appending an element adds its weight to the total over all lists |
| Grouping.GroupAllSum | support_bot/tools/desktop_tools.py:998-1001 | the total over all lists is the total over the input |
| Grouping.MembersCount | support_bot/tools/desktop_tools.py:671 | how often an element occurs in the lists is the sum of its occurrences per list |
| Grouping.MembersPermutation | support_bot/tools/desktop_tools.py:671 | reordering the entries does not change which files they hold |
| Grouping.AddToMembers | support_bot/tools/desktop_tools.py:655-657 | appending adds exactly one occurrence of the element |
| Grouping.GroupAllMembers | support_bot/tools/desktop_tools.py:642-657 | the lists hold every element of the input exactly as often as it occurs there |
| Grouping.Collect | support_bot/tools/desktop_tools.py:645-657 | the collecting loop over a listing computes the dictionary of the kept elements |
| Grouping.KeyOrder | support_bot/tools/desktop_tools.py:671 | sorting entries by key is a total preorder |
| Grouping.SortedGroups | support_bot/tools/desktop_tools.py:671 | `sorted(d.items())` is a permutation of the entries, in key order |
| Grouping.SortedGroupAll | support_bot/tools/desktop_tools.py:671 | the sorted entries have strictly ascending keys, and each list is its key's selection |
| FileSystems.MakeDirsEffect | support_bot/tools/desktop_tools.py:785 | `mkdir(parents=True)` keeps every entry and adds only directories on the way to the path |
| FileSystems.MkdirEffect | support_bot/tools/desktop_tools.py:682 | a successful mkdir keeps every entry as it was and leaves the path a directory |
| FileSystems.MakeDirsFails | support_bot/tools/desktop_tools.py:785 | `mkdir(parents=True, exist_ok=True)` fails exactly when the path or one of its ancestors is a file |
| FileSystems.AncestorIsDir | support_bot/tools/desktop_tools.py:833 | every proper ancestor of an entry is a directory |
| FileSystems.Moved | support_bot/tools/desktop_tools.py:697 | a move replaces the source by the destination and changes no other location |
| FileSystems.MovedKeepsFileCount | support_bot/tools/desktop_tools.py:697 | renaming a file to a free place neither loses nor adds a file |
| FileSystems.MovedWellFormed | support_bot/tools/desktop_tools.py:697 | a successful move leaves a well-formed filesystem |
| FileSystems.RemovedWellFormed | support_bot/tools/desktop_tools.py:840 | a successful rmdir leaves a well-formed filesystem |
| FileSystems.DeeperOrder | support_bot/tools/desktop_tools.py:833 | "deeper first" is a total preorder, so a bottom-up walk exists |
| FileSystems.Enumerate | support_bot/tools/desktop_tools.py:645 | any finite set can be listed, once each, in an order the caller does not choose |
| FileSystems.FileSystem.IterDir | support_bot/tools/desktop_tools.py:645 | `iterdir` lists each entry of the directory once |
| FileSystems.FileSystem.RGlob | support_bot/tools/desktop_tools.py:876 | `rglob("*")` lists each entry below the folder once |
| FileSystems.FileSystem.Walk | support_bot/tools/desktop_tools.py:833 | `os.walk(topdown=False)` lists each directory at or below the folder once, deeper ones first |
| FileSystems.FileSystem.MakeDirectory | support_bot/tools/desktop_tools.py:682 | mkdir succeeds exactly when its model allows it, and then the filesystem is the model's result |
| FileSystems.FileSystem.Move | support_bot/tools/desktop_tools.py:697 | `shutil.move` succeeds exactly when the move is allowed, and then only source and destination change |
| FileSystems.FileSystem.RemoveDir | support_bot/tools/desktop_tools.py:840 | `rmdir` succeeds exactly on an empty directory that does not refuse removal, and removes only it |
| FileSystems.MakeDirWellFormed | support_bot/tools/desktop_tools.py:682 | creating one directory keeps the filesystem well formed |
| FileSystems.ListingExists | support_bot/tools/desktop_tools.py:645 | every finite set of locations has a listing |
| FileSystems.NothingInsideNonDirs | support_bot/tools/desktop_tools.py:645 | only directories have entries inside them |
| Scanning.NothingListedOutsideDirs | support_bot/tools/desktop_tools.py:645 | nothing is listed for an argument that is not a directory |
| Scanning.ListedVisibleIsFile | support_bot/tools/desktop_tools.py:647 | an entry that passes the "not a directory, not hidden" test is a visible file |
| Scanning.RelativeAll | support_bot/tools/desktop_tools.py:898 | one relative path per file, in order |
| Scanning.RelativeInjective | support_bot/tools/desktop_tools.py:898 | below a common folder, different files have different relative paths |
| Relocation.TriedSize | support_bot/tools/desktop_tools.py:693-695 | the collision loop has tried k - 1 names before the k-th |
| Relocation.TakenBound | support_bot/tools/desktop_tools.py:693-695 | the collision counter never passes the number of entries plus one, so the loop ends |
| Relocation.FirstFree | support_bot/tools/desktop_tools.py:693-695 | the counter found is free, and every counter before it is taken |
| Relocation.FirstFreeIsLeast | support_bot/tools/desktop_tools.py:693-695 | the counter found is the least free one |
| Relocation.FreeName | support_bot/tools/desktop_tools.py:687-695 | the name chosen is free in the folder, and it is the file's own name exactly when that name is free |
| Relocation.FreeTarget | support_bot/tools/desktop_tools.py:687-695 | the renaming loop computes the free name |
| Relocation.Failures | support_bot/tools/desktop_tools.py:700-701 | the skipped list holds exactly the files whose move raised |
| Relocation.MovedPlusSkipped | support_bot/tools/desktop_tools.py:697-701 | every file of a bucket is counted once: as moved or as skipped |
| Relocation.TargetsAndSourcesAppend | support_bot/tools/desktop_tools.py:685 | targets and moved sources of two runs concatenate |
| Relocation.MoveOneFacts | support_bot/tools/desktop_tools.py:686-701 | a file is sent to a free location in its folder; when the move succeeds only that file changes place |
| Relocation.MoveAllShape | support_bot/tools/desktop_tools.py:685-701 | one result per file of the bucket, in order, each sending its file into the bucket's folder under its own name or a collision name |
| Relocation.MoveAllKeeps | support_bot/tools/desktop_tools.py:685-701 | every entry that was not moved stays as it was |
| Relocation.MoveAllOnlyTargets | support_bot/tools/desktop_tools.py:685-701 | after a bucket, an entry is either an unmoved entry or a target of the bucket |
| Relocation.MoveAllArrives | support_bot/tools/desktop_tools.py:685-701 | every moved file sits, unchanged, at its target once the bucket is done |
| Relocation.MovedSourceIsSource | support_bot/tools/desktop_tools.py:697 | a moved source or target comes from a result that records a move |
| Relocation.RunShape | support_bot/tools/desktop_tools.py:671-703 | a run has at most one result list per bucket, all of them when it completes, and each list sends the bucket's files, in order, into its folder under their own or a collision name |
| Relocation.MkdirKeeps | support_bot/tools/desktop_tools.py:682 | a bucket's mkdir keeps every entry |
| Relocation.RunKeeps | support_bot/tools/desktop_tools.py:671-703 | every entry that was not moved stays as it was across the whole run |
| Relocation.RunOnlyTargets | support_bot/tools/desktop_tools.py:671-703 | after a run, an entry is an unmoved entry left as it was, a target, or a directory |
| Relocation.MoveFiles | support_bot/tools/desktop_tools.py:684-701 | the per-file loop computes the bucket's results and moved count, and the new filesystem |
| Relocation.MoveFile | support_bot/tools/desktop_tools.py:686-701 | one pass of the per-file loop, against its model |
| Relocation.CountMovedAppend | support_bot/tools/desktop_tools.py:698 | moved_count goes up by one exactly when the move succeeds |
| Relocation.ExecuteBuckets | support_bot/tools/desktop_tools.py:671-704 | the bucket loop computes the run's results and completion, and the new filesystem |
| Relocation.MoveAllFileCount | support_bot/tools/desktop_tools.py:687-697 | across one bucket the number of files is unchanged, given the model's reading of a move that raises as changing nothing (see Left out) |
| Relocation.RunFileCount | support_bot/tools/desktop_tools.py:671-703 | across the whole run the number of files is unchanged, given that a move that raises changes nothing (see Left out): mkdir adds only directories and each successful move renames one file |
| Relocation.MoveAllDistinct | support_bot/tools/desktop_tools.py:687-697 | within a bucket of present files, each listed once, no two files that moved were sent to the same place |
| Relocation.RunTargetsFresh | support_bot/tools/desktop_tools.py:671-703 | a place a run moved a file to that was occupied at the start was emptied by a move of the same run |
| Relocation.FirstTargetsNotReused | support_bot/tools/desktop_tools.py:671-703 | no later bucket sends a file where a file of an earlier bucket went |
| Relocation.RunDistinct | support_bot/tools/desktop_tools.py:671-703 | across a run of a plan of present files, each listed once, no two files that moved were sent to the same place |
| Relocation.RunArrivesFlat | support_bot/tools/desktop_tools.py:671-703 | for a plan of present files, each listed once, every move of the whole run that went through leaves its file unchanged at its target |
| Relocation.RunRelocates | support_bot/tools/desktop_tools.py:671-703 | for a plan of present files, each listed once, the moves that went through send bucket files to pairwise distinct targets where each arrives unchanged, and every entry not moved stays as it was |
| Relocation.MoveAllTargetsFresh | support_bot/tools/desktop_tools.py:687-697 | no move overwrites an entry that was there before, other than a file that itself moved away |
| Relocation.MoveAllSources | support_bot/tools/desktop_tools.py:685 | only files of the bucket are moved |
| Relocation.RunSources | support_bot/tools/desktop_tools.py:671-685 | only files of the plan are moved |
| Relocation.RunArrives | support_bot/tools/desktop_tools.py:671-703 | every file the run moved sits, unchanged, at its target once the whole run is over |
| Relocation.FirstBucketArrives | support_bot/tools/desktop_tools.py:680-703 | the files the first bucket moved are still at their targets, unchanged, after the later buckets |
| Relocation.LaterBucketArrives | support_bot/tools/desktop_tools.py:680-703 | a later bucket's moves read the files as they were before the first bucket ran |
| Relocation.LaterBucketsKept | support_bot/tools/desktop_tools.py:680-701 | the first bucket's mkdir and moves leave the files of the later buckets in place and unchanged |
| Relocation.RunArrivesJoin | support_bot/tools/desktop_tools.py:671-703 | the first bucket's arrivals and the later buckets' arrivals together give the run's |
| Relocation.ArrivesCons | support_bot/tools/desktop_tools.py:685-701 | one move that arrives, followed by moves that arrive and leave its file alone, arrive together |
| Relocation.FlattenIndex | support_bot/tools/desktop_tools.py:671-703 | every result of a run belongs to one bucket |
| Relocation.CountMovedConcat | support_bot/tools/desktop_tools.py:699 | the total of moves is the sum over the buckets |
| Relocation.FailuresConcat | support_bot/tools/desktop_tools.py:701 | the skipped list is the concatenation over the buckets |
| Relocation.RunLength | support_bot/tools/desktop_tools.py:671-703 | a completed run has one result per planned file |
| Relocation.RunMovesAll | support_bot/tools/desktop_tools.py:671-703 | a completed run without failures moved every planned file |
| Relocation.MoveAllMovesAll | support_bot/tools/desktop_tools.py:685-701 | a bucket without failures moved every file of it |
| Relocation.NoFailureMeansMoved | support_bot/tools/desktop_tools.py:697-701 | with no file skipped, every file is among the moved ones |
| Relocation.RunTargetsDepth | support_bot/tools/desktop_tools.py:784-789 | targets lie one level below their bucket folders |
| Relocation.MovedIntoBucket | support_bot/tools/desktop_tools.py:687-697 | a moved file sits, unchanged, in the folder of the bucket that planned it |
| OrganizeByType.Buckets | support_bot/tools/desktop_tools.py:671-672 | one bucket per category, in plan order, at dest_base / category |
| OrganizeByType.PreviewOf | support_bot/tools/desktop_tools.py:674-679 | one preview entry per category, with its size, first five names and the number left out |
| OrganizeByType.Organize | support_bot/tools/desktop_tools.py:605-718 | a preview changes nothing, and neither does any stop before the moves (an unresolvable folder or destination, a missing folder, one that is not a directory, or nothing to organize); "folder not found" exactly when the resolved folder is absent |
| OrganizeByType.PrepareOrganization | support_bot/tools/desktop_tools.py:622-660 | resolution, the existence check, dest_base and the collecting loop over some listing of the folder |
| OrganizeByType.OrganizeFiles | support_bot/tools/desktop_tools.py:605-718 | the report and the new filesystem are `Organize` of the old filesystem for some listing of the folder |
| OrganizeByType.PreviewOrganization | support_bot/tools/desktop_tools.py:721-730 | the preview is `Organize` with preview_only on, and nothing changes |
| OrganizeByType.ReadyFacts | support_bot/tools/desktop_tools.py:622-660 | a call that reaches the plan has a resolved directory, a destination and a non-empty sorted plan |
| OrganizeByType.BucketFiles | support_bot/tools/desktop_tools.py:671-685 | the buckets hold exactly the plan's files, in order |
| OrganizeByType.PlanClassifies | support_bot/tools/desktop_tools.py:645-671 | the plan partitions the candidates by category: categories ascend, each holds exactly its candidates in listing order, and each candidate is planned once |
| OrganizeByType.TotalsSum | support_bot/tools/desktop_tools.py:703-708 | the category lines add up to the total moved |
| OrganizeByType.PlanFacts | support_bot/tools/desktop_tools.py:645-657 | every planned file sits in the list of its own category |
| OrganizeByType.RunAccounts | support_bot/tools/desktop_tools.py:680-713 | moved plus skipped is the number of planned files, the category lines add up to the total, and at most three skipped files are named |
| OrganizeByType.OrganizeAccounts | support_bot/tools/desktop_tools.py:684-713 | every candidate is accounted for as moved or skipped, the lines add up, and categories ascend without repeats |
| OrganizeByType.RunDelivers | support_bot/tools/desktop_tools.py:680-701 | only planned files change; each stays untouched or sits unchanged in its category folder under its own or a collision name |
| OrganizeByType.MovedFileArrives | support_bot/tools/desktop_tools.py:687-697 | a moved file sits, unchanged, in the folder of its own category |
| OrganizeByType.OrganizeDelivers | support_bot/tools/desktop_tools.py:605-718 | nothing but the candidates changes; each one stays or arrives unchanged under dest_base / its category, under its own or a collision name; the moves that went through (`Moves`) are moves of candidates to pairwise distinct targets, each file arriving there unchanged, and every entry not moved stays as it was, so none is lost or overwritten; and, with a move that raises modelled as changing nothing, there are as many files afterwards as before |
| OrganizeByType.ReadyInSource | support_bot/tools/desktop_tools.py:622-671 | with create_in_source, dest_base is the folder itself, a directory, and the plan is the sorted plan of its children |
| OrganizeByType.PlanMembers | support_bot/tools/desktop_tools.py:645-657 | the planned files are exactly the candidates of the listing |
| OrganizeByType.RunLeavesNoCandidate | support_bot/tools/desktop_tools.py:645-701 | a completed run that moved every planned file into sub-folders of the folder leaves it a directory holding no candidate |
| OrganizeByType.FirstRunEmpties | support_bot/tools/desktop_tools.py:605-718 | after a run inside the source folder that skipped nothing, the folder is a directory with no candidate left |
| OrganizeByType.OrganizeFindsNothing | support_bot/tools/desktop_tools.py:645-660 | a directory that lists no candidate is reported already organized, untouched |
| OrganizeByType.OrganizeIdempotent | support_bot/tools/desktop_tools.py:645-660 | after a run inside the source folder that skipped nothing, a second call finds the folder already clean and changes nothing |
| OrganizeByType.CategoryFolderIsLeftAlone | support_bot/tools/desktop_tools.py:650-652 | a folder named like a category is never organized, because the parent-name check skips every entry |
| OrganizeByType.DocumentsIsLeftAlone | support_bot/tools/desktop_tools.py:586-652 | `organize_files` on "documents", in any case and with surrounding whitespace, never moves or previews anything |
| OrganizeByType.PreviewOfFacts | support_bot/tools/desktop_tools.py:674-679 | each preview entry shows min(count, 5) names plus the number left out, and the counts add up to the plan |
| OrganizeByType.PreviewOfPlan | support_bot/tools/desktop_tools.py:645-679 | the preview of the sorted plan lists each category once, ascending, with counts that add up to the candidates, min(count, 5) names each and the rest counted |
| OrganizeByType.PreviewShowsPlan | support_bot/tools/desktop_tools.py:666-679 | a preview report lists each category once, ascending, with counts that add up to the candidates, min(count, 5) names each and the rest counted |
| OrganizeByDate.YearFolder | support_bot/tools/desktop_tools.py:763 | the year folder is a single non-empty component |
| OrganizeByDate.MonthFolder | support_bot/tools/desktop_tools.py:763 | the month folder is a single component starting with the two-digit month |
| OrganizeByDate.DateKeyParts | support_bot/tools/desktop_tools.py:763-784 | the slash in the date key makes two levels: the year folder, then the month folder |
| OrganizeByDate.DateKeyInjective | support_bot/tools/desktop_tools.py:762-763 | two files get the same date key exactly when they were modified in the same month of the same year |
| OrganizeByDate.Buckets | support_bot/tools/desktop_tools.py:783-785 | one bucket per date key, at source / year / month, in plan order |
| OrganizeByDate.Counts | support_bot/tools/desktop_tools.py:778 | one date line per date key, with the size of its list |
| OrganizeByDate.Organize | support_bot/tools/desktop_tools.py:733-808 | a preview changes nothing, and neither does any stop before the moves (an unresolvable folder, a missing folder, one that is not a directory, or nothing to organize); "folder not found" exactly when the resolved folder is absent |
| OrganizeByDate.PrepareByDate | support_bot/tools/desktop_tools.py:743-770 | resolution, the existence check and the collecting loop over some listing of the folder |
| OrganizeByDate.OrganizeFilesByDate | support_bot/tools/desktop_tools.py:733-808 | the report and the new filesystem are `Organize` of the old filesystem for some listing of the folder |
| OrganizeByDate.ReadyFacts | support_bot/tools/desktop_tools.py:743-770 | a call that reaches the plan has a resolved directory and a non-empty sorted plan |
| OrganizeByDate.PlanDates | support_bot/tools/desktop_tools.py:755-777 | the plan partitions the visible files by date key: keys ascend without repeats, and each holds exactly its files in listing order |
| OrganizeByDate.SameFolderSameMonth | support_bot/tools/desktop_tools.py:762-767 | two planned files share a date folder exactly when they have the same modification month |
| OrganizeByDate.BucketFiles | support_bot/tools/desktop_tools.py:783-787 | the buckets hold exactly the plan's files, in order |
| OrganizeByDate.BucketDepth | support_bot/tools/desktop_tools.py:784 | every date folder lies two levels below the organized folder |
| OrganizeByDate.CountsSum | support_bot/tools/desktop_tools.py:801 | the date lines add up to the number of planned files |
| OrganizeByDate.RunAccounts | support_bot/tools/desktop_tools.py:787-803 | a completed run moves at most the planned files, and all of them exactly when no move raised |
| OrganizeByDate.OrganizeAccounts | support_bot/tools/desktop_tools.py:772-803 | the date lines ascend without repeats, are non-empty, add up to the visible files, and bound the total moved |
| OrganizeByDate.PreviewMatches | support_bot/tools/desktop_tools.py:775-801 | the preview announces exactly the date lines an organization that goes through reports |
| OrganizeByDate.MovedFileArrives | support_bot/tools/desktop_tools.py:789-796 | a moved file sits, unchanged, in the folder of its own year and month |
| OrganizeByDate.RunDelivers | support_bot/tools/desktop_tools.py:783-799 | only planned files change; each stays untouched or sits unchanged in its month folder |
| OrganizeByDate.OrganizeDelivers | support_bot/tools/desktop_tools.py:733-808 | nothing but the visible files changes; each one stays or arrives unchanged under source / year / month, under its own or a collision name; the moves that went through (`Moves`) are moves of visible files to pairwise distinct targets, each file arriving there unchanged, and every entry not moved stays as it was, so none is lost or overwritten; and, with a move that raises modelled as changing nothing, there are as many files afterwards as before |
| OrganizeByDate.OrganizeIdempotent | support_bot/tools/desktop_tools.py:757-770 | after a run that moved every file, a second call finds nothing to organize and changes nothing |
| Cleanup.SweepAll | support_bot/tools/desktop_tools.py:833-843 | the walk removes only directories of the walk other than the root, each at most once, and keeps everything else as it was |
| Cleanup.SweepNothing | support_bot/tools/desktop_tools.py:845-848 | a walk that removes nothing changes nothing |
| Cleanup.Clean | support_bot/tools/desktop_tools.py:811-851 | only a report of removals changes the filesystem; it removed at least one folder and names at most ten; "folder not found" exactly when the folder is absent |
| Cleanup.NothingBelowAbsent | support_bot/tools/desktop_tools.py:827-833 | nothing is walked below an absent location |
| Cleanup.TryRemoveEmpty | support_bot/tools/desktop_tools.py:838-843 | a directory is removed exactly when it exists, has no entries and its removal does not raise; nothing else changes |
| Cleanup.SweepWalk | support_bot/tools/desktop_tools.py:833-843 | the loop over the walk computes `SweepAll` |
| Cleanup.CleanupEmptyFolders | support_bot/tools/desktop_tools.py:811-851 | the report and the new filesystem are `Clean` of the old filesystem for some bottom-up walk |
| Cleanup.HollowUnfold | support_bot/tools/desktop_tools.py:839-840 | a directory is hollow exactly when it may be removed and all its children are hollow |
| Cleanup.RemovableIffHollow | support_bot/tools/desktop_tools.py:839-840 | when the walk reaches a directory, it is empty and removable exactly when it is hollow |
| Cleanup.ChildComesEarlier | support_bot/tools/desktop_tools.py:833 | in a bottom-up walk every child directory comes before its parent |
| Cleanup.EmptyOnceChildrenGone | support_bot/tools/desktop_tools.py:839 | a directory has no entries after removals exactly when each of its children was removed |
| Cleanup.SweepHollow | support_bot/tools/desktop_tools.py:833-843 | after any prefix of a bottom-up walk, the removed list holds exactly the hollow directories of that prefix |
| Cleanup.CleanRemovesHollow | support_bot/tools/desktop_tools.py:811-851 | cleaning removes exactly the hollow directories below the folder, keeps all else unchanged, and counts them |
| Cleanup.CleanKeepsFiles | support_bot/tools/desktop_tools.py:833-843 | files, the folder itself and everything outside it are kept as they were |
| Cleanup.CleanOrderIndependent | support_bot/tools/desktop_tools.py:833-846 | what is removed and how many does not depend on the order of the walk |
| Cleanup.SameKeptSame | support_bot/tools/desktop_tools.py:833-843 | two cleanings that keep the same entries, unchanged, leave the same filesystem |
| Cleanup.CleanedWellFormed | support_bot/tools/desktop_tools.py:840 | what a cleaning leaves is well formed |
| Cleanup.NoHollowLeft | support_bot/tools/desktop_tools.py:833-843 | once cleaned, no hollow directory is left below the folder |
| Cleanup.CleanIdempotent | support_bot/tools/desktop_tools.py:811-851 | cleaning a second time finds no empty folders and changes nothing |
| Duplicates.LargerFirstOrder | support_bot/tools/desktop_tools.py:894 | "larger size first" is a total preorder |
| Duplicates.Ranked | support_bot/tools/desktop_tools.py:894 | the groups sorted by size, largest first, are a permutation of the groups |
| Duplicates.Display | support_bot/tools/desktop_tools.py:894-899 | each shown group has its size and the relative paths of its first five files |
| Duplicates.FindDuplicates | support_bot/tools/desktop_tools.py:854-905 | the report is `Find` of the filesystem for some listing of the folder, and nothing changes |
| Duplicates.SizeGroupsAreClasses | support_bot/tools/desktop_tools.py:874-881 | each size group holds exactly the files of that size, in listing order, and every file is in its group |
| Duplicates.RankedMembers | support_bot/tools/desktop_tools.py:884-894 | the ranked groups are exactly the shared positive sizes |
| Duplicates.RankedDescending | support_bot/tools/desktop_tools.py:894 | ranked sizes strictly decrease |
| Duplicates.RankedGroups | support_bot/tools/desktop_tools.py:884-894 | each ranked group has a positive size and at least two files, all of that size |
| Duplicates.SuspectsComplete | support_bot/tools/desktop_tools.py:884-889 | any list holding exactly the suspect size groups has a group for every positive size shared by two files |
| Duplicates.RankedComplete | support_bot/tools/desktop_tools.py:884-894 | every positive size shared by two files has a ranked group |
| Duplicates.RankedSizeClasses | support_bot/tools/desktop_tools.py:874-894 | the ranked groups are the size classes of the files, largest first |
| Duplicates.DisplayShape | support_bot/tools/desktop_tools.py:894 | at most ten groups are shown, and fewer only when there are fewer |
| Duplicates.DisplayOrdered | support_bot/tools/desktop_tools.py:894-899 | shown sizes strictly decrease and each shows the first min(group size, 5) files of that size, in walk order, relative to the folder |
| Duplicates.RankedBeyondShown | support_bot/tools/desktop_tools.py:894 | a ranked size not among those shown is smaller than all ten shown |
| Duplicates.DisplayLeftOut | support_bot/tools/desktop_tools.py:894 | a size class left out is smaller than every size shown, and only when ten are shown |
| Duplicates.DisplayFacts | support_bot/tools/desktop_tools.py:894-899 | the shown groups are the largest shared sizes, in order, each with exactly the first five files of that size, relative to the folder |
| Duplicates.FindNone | support_bot/tools/desktop_tools.py:884-890 | "no duplicates" exactly when the folder exists and no positive size is shared by two files |
| Duplicates.NoSuspects | support_bot/tools/desktop_tools.py:884-889 | no group is suspect exactly when no positive size is shared |
| Duplicates.FindAtShown | support_bot/tools/desktop_tools.py:874-905 | once the folder is resolved, a report of duplicates shows up to ten shared sizes, largest first, each with exactly the first five walked files of that size relative to the folder, leaving out only smaller sizes once ten are shown |
| Duplicates.FindShown | support_bot/tools/desktop_tools.py:854-905 | a report of duplicates shows up to ten shared sizes, largest first, each with exactly its first min(n, 5) walked files relative to the folder, and leaves out only smaller sizes once ten are shown |
| Duplicates.RankedEmpty | support_bot/tools/desktop_tools.py:889 | the ranking is empty exactly when there is no suspect group |
| Duplicates.NoneShared | support_bot/tools/desktop_tools.py:884-889 | the size classes are empty exactly when no positive size is shared |
| LargeFiles.Pairs | support_bot/tools/desktop_tools.py:933-935 | one (size, file) pair per file, in order |
| LargeFiles.BiggerOrder | support_bot/tools/desktop_tools.py:941 | "larger size first" is a total preorder |
| LargeFiles.Ranked | support_bot/tools/desktop_tools.py:941 | the hits sorted largest first are a permutation of the hits |
| LargeFiles.Display | support_bot/tools/desktop_tools.py:946-949 | each line shows its file's size and relative path |
| LargeFiles.Scan | support_bot/tools/desktop_tools.py:931-935 | the scanning loop collects exactly the files that reach the threshold, in listing order |
| LargeFiles.AddSizes | support_bot/tools/desktop_tools.py:945-950 | the total is the sum of the shown sizes |
| LargeFiles.FindLargeFiles | support_bot/tools/desktop_tools.py:908-961 | the report is `Find` of the filesystem for some listing of the folder, and nothing changes |
| LargeFiles.HitsAreLargeFiles | support_bot/tools/desktop_tools.py:928-935 | the hits list every file below the folder that reaches the threshold, once each, with its size |
| LargeFiles.TopFifteen | support_bot/tools/desktop_tools.py:941-946 | the first fifteen are the largest, in order, without repeats; a hit left out is no larger than any shown |
| LargeFiles.NonPositiveTakesAll | support_bot/tools/desktop_tools.py:928-934 | a threshold of zero or below counts every file |
| LargeFiles.ShownOrder | support_bot/tools/desktop_tools.py:941-949 | shown sizes never increase, and at most fifteen are shown |
| LargeFiles.ShownAreLarge | support_bot/tools/desktop_tools.py:946-949 | each shown line is a large file with its own size and relative path |
| LargeFiles.ShownLargest | support_bot/tools/desktop_tools.py:941-953 | a large file not shown is no larger than any shown, and only when fifteen are shown |
| LargeFiles.SameSizes | support_bot/tools/desktop_tools.py:950 | the total of the shown lines is the total of the largest fifteen hits |
| LargeFiles.FindOutcome | support_bot/tools/desktop_tools.py:918-938 | "folder not found" exactly when the folder is absent; "no large files" exactly when it exists and no file below it reaches the threshold |
| LargeFiles.ShownDistinct | support_bot/tools/desktop_tools.py:941-949 | no file is shown twice: the shown lines have pairwise different relative paths |
| LargeFiles.ReportShowsLargest | support_bot/tools/desktop_tools.py:941-956 | the report counts all large files, shows the largest fifteen once each with their total, and the remainder is the rest |
| LargeFiles.FindShown | support_bot/tools/desktop_tools.py:908-961 | a report of large files counts every file below the folder that reaches the threshold and shows the largest fifteen of them, each once, with its size and relative path |
| FolderStats.ExtensionKey | support_bot/tools/desktop_tools.py:995 | the extension key is the lower-cased suffix, or "(no extension)" |
| Categories.CategoryKey | support_bot/tools/desktop_tools.py:996 | the category key is a category of the table or Other |
| FolderStats.Tallies | support_bot/tools/desktop_tools.py:998-1001 | each category entry is the count and total size of its files |
| FolderStats.Counts | support_bot/tools/desktop_tools.py:1003-1005 | each extension entry is the count of its files |
| FolderStats.AddFileTallies | support_bot/tools/desktop_tools.py:998-1001 | one step of the category update agrees with appending the file to its category's list |
| FolderStats.AddOneCounts | support_bot/tools/desktop_tools.py:1003-1005 | one step of the extension update agrees with appending the file to its extension's list |
| FolderStats.ScanFiles | support_bot/tools/desktop_tools.py:984-1005 | the statistics loop computes the totals, the category table and the extension table of the files listed |
| FolderStats.TalliesStep | support_bot/tools/desktop_tools.py:998-1001 | one more file updates the category table as the tally of the longer walk |
| FolderStats.CountsStep | support_bot/tools/desktop_tools.py:1003-1005 | one more file updates the extension table as the count of the longer walk |
| FolderStats.ScanStep | support_bot/tools/desktop_tools.py:989-1005 | one more file adds one to the count, its size to the total, and updates both tables |
| FolderStats.StatsOrders | support_bot/tools/desktop_tools.py:1017-1022 | "more bytes first" and "more files first" are total preorders |
| FolderStats.ByBytes | support_bot/tools/desktop_tools.py:1017 | the categories sorted largest first are a permutation of the table |
| FolderStats.TopExtensions | support_bot/tools/desktop_tools.py:1022 | the top list keeps min(number of extensions, 5) entries |
| FolderStats.GetFolderStats | support_bot/tools/desktop_tools.py:964-1030 | the report is `Analyze` of the filesystem for some listing of the folder, and nothing changes |
| FolderStats.TalliesSums | support_bot/tools/desktop_tools.py:998-1001 | the category counts add up to the files and the category sizes to their total size |
| FolderStats.CountsSum | support_bot/tools/desktop_tools.py:1003-1005 | the extension counts add up to the files |
| FolderStats.MembersLength | support_bot/tools/desktop_tools.py:989-1005 | every file is counted in exactly one entry |
| FolderStats.GroupsAreSelections | support_bot/tools/desktop_tools.py:998-1005 | table keys are distinct and each entry holds exactly the files with its key |
| FolderStats.ScannedTallies | support_bot/tools/desktop_tools.py:989-1001 | the category table has one entry per category present, with exactly the count and size of its files, and adds up to the totals |
| FolderStats.ScannedCounts | support_bot/tools/desktop_tools.py:1003-1005 | the extension table has one entry per extension present, with exactly the count of its files |
| FolderStats.PermutedTallies | support_bot/tools/desktop_tools.py:1017 | any reordering of the category table, such as the sort by size, keeps it a correct table: each category once with its number and total size of files, counts and sizes adding up |
| FolderStats.TopExtensionsFrequent | support_bot/tools/desktop_tools.py:1022 | the top extensions are at most five, distinct, by decreasing count, each with its true count, and an extension left out is no more frequent than any shown, and only when five are shown |
| FolderStats.TopOfSorted | support_bot/tools/desktop_tools.py:1022 | the first five of any sorted permutation of a correct table are the most frequent |
| FolderStats.SortedEntries | support_bot/tools/desktop_tools.py:1022 | a sorted permutation of a correct table has distinct keys and true counts |
| FolderStats.SortedLeftOut | support_bot/tools/desktop_tools.py:1022 | in a sorted permutation, every entry after the fifth is no more frequent than the first five |
| FolderStats.WalkedFiles | support_bot/tools/desktop_tools.py:989-990 | the files of a recursive listing are exactly the files below the folder, once each |
| FolderStats.AnalyzeReports | support_bot/tools/desktop_tools.py:964-1030 | "folder not found" exactly when the folder is absent; otherwise the statistics count every file below it, total their sizes, tabulate categories by size and name the five most frequent extensions |
| FolderStats.TotalsOrderIndependent | support_bot/tools/desktop_tools.py:984-993 | the total count and total size do not depend on the order of the walk |

## Left out

- Text.Lower: lower-cases ASCII letters only, because `str.lower` on other Unicode letters is outside the model. Symbolic folder names and the extension table are ASCII.
- Path "." and ".." components: "." is dropped as pathlib does, and ".." is kept as a literal component instead of naming the parent directory. A leading "//" is treated like "/".
- Month names: `strftime('%B')` is modelled for the C locale, which gives English month names.
- Modification dates: the conversion from a timestamp to a local year and month (`datetime.fromtimestamp`, time zones) is outside the model. A file carries its year and month directly.
- Sizes in KB, MB and GB: the floating-point formatting of sizes (`:.1f`, `:.2f`) is not modelled. Reports carry exact byte counts.
- Report text: emoji, headings and message wording are left out. Reports are datatypes that keep every number, name and path the text shows.
- Error messages: the text of an exception caught by the outer handler and the "file: reason" lines of skipped files are left out. The model keeps which files were skipped.
- FileSystems.FileSystem.Move: a `shutil.move` that raises is modelled as changing nothing. The real call falls back to copying and then unlinking the source, so a failure can leave a full or partial copy at the target, for example when the source folder is read-only or the disk fills up. The file-count clauses of `OrganizeDelivers` (both organizers) and `Relocation.RunFileCount` hold under this reading only, and so does "every entry not moved stays as it was" for a skipped file. The distinct targets and the arrival of every file whose move went through do not depend on it.
- Paths.Suffix: pathlib's rule up to Python 3.13 is modelled, under which a name ending in a single dot ("notes.") has no suffix; no Python version is fixed by the program, and later pathlib releases treat such a trailing dot differently.
- Relocation.MoveOne: a skipped file is taken to be still at its source and absent from its target, by the same reading of a move that raises.
- Symbolic links, devices, permissions on reading and `stat` failures: the filesystem has only directories and files. The only failures are a move that raises, an rmdir that raises, and a mkdir that meets a file or a missing parent.
- Cleanup.Clean: the walk may visit the directories in any order that puts each directory after those below it, which includes interleaving subtrees; `os.walk(topdown=False)` picks one such order. So the first ten names shown may differ from the real run; which folders go and how many does not depend on that order (`Cleanup.CleanOrderIndependent`).
- Unreadable directories during `os.walk` or `rglob`: the real walk skips them silently; the model lists every directory.
- Duplicates.Ranked: the order among groups of equal size cannot arise (sizes are keys). The order of files within a group follows the listing, which the operating system chooses.
- LargeFiles.Ranked: the sort is stable, as `list.sort` is, but no lemma fixes the order among files of equal size. Which of several equal-size files make the top fifteen therefore depends on the listing order.
- FolderStats.TopExtensions: ties in extension counts are broken by insertion order, as `sorted` does, but no lemma fixes which of several equally frequent extensions are shown.
- LargeFiles.Find: the total shown is not proved independent of the listing order, because the top fifteen may differ among equal-size files.
- Concurrency: another process changing the folder while a tool runs is not modelled.
- Other tools of the same file (screenshots, clipboard, windows, processes) and the agent that calls them are not part of this model.
