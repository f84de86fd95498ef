/**
 * The extension table FILE_CATEGORIES and the classifier get_file_category
 * (support_bot/tools/desktop_tools.py:572-583, 596-602).
 */
module Categories {
  import opened Text
  import opened Paths

  /** FILE_CATEGORIES, in declaration order. ".json", ".xml" and ".csv" appear twice;
      the first category listing an extension is the one that wins. */
  const Table: seq<(string, seq<string>)> := [
    ("Documents", [".pdf", ".doc", ".docx", ".txt", ".rtf", ".odt", ".xls", ".xlsx", ".ppt", ".pptx", ".csv"]),
    ("Images", [".jpg", ".jpeg", ".png", ".gif", ".bmp", ".svg", ".webp", ".ico", ".tiff", ".raw"]),
    ("Videos", [".mp4", ".avi", ".mkv", ".mov", ".wmv", ".flv", ".webm", ".m4v"]),
    ("Audio", [".mp3", ".wav", ".flac", ".aac", ".ogg", ".wma", ".m4a"]),
    ("Archives", [".zip", ".rar", ".7z", ".tar", ".gz", ".bz2"]),
    ("Code", [".py", ".js", ".html", ".css", ".java", ".cpp", ".c", ".h", ".json", ".xml", ".yaml", ".yml", ".md"]),
    ("Executables", [".exe", ".msi", ".bat", ".cmd", ".ps1"]),
    ("Fonts", [".ttf", ".otf", ".woff", ".woff2"]),
    ("eBooks", [".epub", ".mobi", ".azw", ".azw3"]),
    ("Data", [".sql", ".db", ".sqlite", ".json", ".xml", ".csv"])
  ]

  /** The keys of FILE_CATEGORIES ("Other" is not one of them). */
  const Names: seq<string> :=
    ["Documents", "Images", "Videos", "Audio", "Archives", "Code", "Executables", "Fonts", "eBooks", "Data"]

  /** The category of an extension no table entry lists. */
  const Other: string := "Other"

  predicate IsCategoryName(name: string)
  {
    name in Names
  }

  lemma NamesMatchTable()
    ensures |Names| == |Table|
    ensures forall i :: 0 <= i < |Table| ==> Table[i].0 == Names[i]
    ensures NoRepeatedName(Names) && Other !in Names
  {
  }

  predicate NoRepeatedName(s: seq<string>)
  {
    forall i, j :: 0 <= i < j < |s| ==> s[i] != s[j]
  }

  /** The loop of get_file_category over the entries of table from i on: it stops at the
      first entry that lists ext, or at the end when none does. */
  function FirstIndex(table: seq<(string, seq<string>)>, ext: string, i: nat): (r: nat)
    requires i <= |table|
    ensures i <= r <= |table|
    ensures r < |table| ==> ext in table[r].1
    ensures forall k :: i <= k < r ==> ext !in table[k].1
    decreases |table| - i
  {
    if i == |table| then i
    else if ext in table[i].1 then i
    else FirstIndex(table, ext, i + 1)
  }

  /** What the loop returns: the name of the entry it stopped at, or "Other". */
  function Classify(table: seq<(string, seq<string>)>, ext: string): string
  {
    var k := FirstIndex(table, ext, 0);
    if k == |table| then Other else table[k].0
  }

  /** get_file_category: lower-case the extension and look it up. */
  function CategoryOf(extension: string): (r: string)
    ensures r == Other || IsCategoryName(r)
  {
    NamesMatchTable();
    Classify(Table, Lower(extension))
  }

  /** The classifier answers category j exactly when table entry j is the first to list
      the lower-cased extension, and "Other" exactly when no entry lists it. */
  lemma CategoryOfFirstMatch(extension: string, j: nat)
    requires j < |Table|
    ensures CategoryOf(extension) == Table[j].0 <==>
              Lower(extension) in Table[j].1 && forall k :: 0 <= k < j ==> Lower(extension) !in Table[k].1
    ensures CategoryOf(extension) == Other <==> forall k :: 0 <= k < |Table| ==> Lower(extension) !in Table[k].1
  {
    NamesMatchTable();
    CategoryAt(Table, Lower(extension), j);
  }

  /** In a table whose names are distinct and differ from "Other", the lookup answers the
      name of entry j exactly when entry j is the first to list ext, and "Other" exactly
      when no entry lists it. */
  lemma CategoryAt(table: seq<(string, seq<string>)>, ext: string, j: nat)
    requires j < |table|
    requires forall a, b :: 0 <= a < b < |table| ==> table[a].0 != table[b].0
    requires forall a :: 0 <= a < |table| ==> table[a].0 != Other
    ensures Classify(table, ext) == table[j].0 <==> ext in table[j].1 && forall k :: 0 <= k < j ==> ext !in table[k].1
    ensures Classify(table, ext) == Other <==> forall k :: 0 <= k < |table| ==> ext !in table[k].1
  {
    var r := FirstIndex(table, ext, 0);
    if ext in table[j].1 {
      assert r <= j;
    }
    if r < |table| && r != j {
      assert table[r].0 != table[j].0;
    }
  }

  /** Upper-case letters in the extension do not matter. */
  lemma CategoryIgnoresCase(extension: string)
    ensures CategoryOf(extension) == CategoryOf(Lower(extension))
  {
    LowerIdempotent(extension);
  }

  /** Worked case: ".json" is listed under Code and Data and lands in Code, whatever
      its case. */
  lemma JsonIsCode()
    ensures CategoryOf(".JSON") == "Code"
  {
    var ext := ".json";
    assert Lower(".JSON") == ext;
    assert ext in Table[5].1;
    assert ext !in Table[0].1 && ext !in Table[1].1 && ext !in Table[2].1;
    assert ext !in Table[3].1 && ext !in Table[4].1;
    CategoryOfFirstMatch(".JSON", 5);
  }

  /** Worked case: ".xml" is listed under Code and Data and lands in Code. */
  lemma XmlIsCode()
    ensures CategoryOf(".xml") == "Code"
  {
    var ext := ".xml";
    assert Lower(ext) == ext;
    assert ext in Table[5].1;
    assert ext !in Table[0].1 && ext !in Table[1].1 && ext !in Table[2].1;
    assert ext !in Table[3].1 && ext !in Table[4].1;
    CategoryOfFirstMatch(ext, 5);
  }

  /** Worked case: ".csv" is listed under Documents and Data and lands in Documents. */
  lemma CsvIsDocuments()
    ensures CategoryOf(".csv") == "Documents"
  {
    var ext := ".csv";
    assert Lower(ext) == ext;
    assert ext in Table[0].1;
    CategoryOfFirstMatch(ext, 0);
  }

  /** Worked case: a file without a dot has the empty suffix, which is Other. */
  lemma NoSuffixIsOther()
    ensures CategoryOf("") == Other
  {
    assert Lower("") == "";
    forall k | 0 <= k < |Table| ensures "" !in Table[k].1 {
      assert forall e :: e in Table[k].1 ==> |e| >= 2;
    }
  }

  /** The category of a file: the category of its name's suffix. */
  function CategoryKey(item: Path): (r: string)
    ensures r == Other || IsCategoryName(r)
  {
    CategoryOf(Suffix(PathName(item)))
  }
}
