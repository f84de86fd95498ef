/**
 * Names and paths: pathlib's name / suffix / stem, the "_N" collision name of the
 * organizers, parsing of a path string (Path(s).expanduser()) and the resolution of a
 * folder argument through COMMON_FOLDERS (support_bot/tools/desktop_tools.py:586-593 and
 * the identical resolution block at the head of every operation).
 */
module Paths {
  import opened Text
  import opened Wrappers

  /** One component of a path. */
  type Name = string

  /** An absolute location in the filesystem: the components below "/", so [] is "/". */
  type Path = seq<Name>

  /** pathlib's .name: the last component, "" for the root. */
  function PathName(p: Path): Name
  {
    if p == [] then "" else p[|p| - 1]
  }

  /** f.name for each f */
  function NamesOf(files: seq<Path>): (r: seq<Name>)
    ensures |r| == |files| && forall i :: 0 <= i < |r| ==> r[i] == PathName(files[i])
  {
    if files == [] then [] else [PathName(files[0])] + NamesOf(files[1..])
  }

  function Parent(p: Path): (q: Path)
    requires p != []
    ensures |q| == |p| - 1 && q == p[..|q|]
  {
    p[..|p| - 1]
  }

  /** q lies strictly below p. */
  predicate StrictlyBelow(q: Path, p: Path)
  {
    |p| < |q| && q[..|p|] == p
  }

  /** q is p or lies below it. */
  predicate AtOrBelow(q: Path, p: Path)
  {
    |p| <= |q| && q[..|p|] == p
  }

  /** A hidden name: one that starts with a dot. */
  predicate IsHidden(name: Name)
  {
    |name| > 0 && name[0] == '.'
  }

  /** str.rfind(c): the last index of c, or -1. */
  function RFind(s: string, c: char): (i: int)
    ensures -1 <= i < |s|
    ensures i >= 0 ==> s[i] == c
    ensures forall j :: i < j < |s| ==> s[j] != c
  {
    if s == [] then -1
    else if s[|s| - 1] == c then |s| - 1
    else RFind(s[..|s| - 1], c)
  }

  /** pathlib's .suffix: from the last dot on, unless that dot is the first or the last
      character of the name. */
  function Suffix(name: Name): (r: string)
    ensures r == [] || (|r| >= 2 && r[0] == '.' && '.' !in r[1..])
  {
    var i := RFind(name, '.');
    if 0 < i < |name| - 1 then name[i..] else ""
  }

  /** pathlib's .stem: the name without its suffix. */
  function Stem(name: Name): string
  {
    var i := RFind(name, '.');
    if 0 < i < |name| - 1 then name[..i] else name
  }

  /** Stem and suffix split a name in two. */
  lemma StemSuffixSplit(name: Name)
    ensures Stem(name) + Suffix(name) == name
  {
  }

  /** Worked cases: only the last dot counts; a leading or trailing dot is no suffix. */
  lemma SuffixExamples()
    ensures Suffix("a.tar.gz") == ".gz" && Stem("a.tar.gz") == "a.tar"
    ensures Suffix("report.PDF") == ".PDF"
    ensures Suffix(".bashrc") == "" && Stem(".bashrc") == ".bashrc"
    ensures Suffix("notes.") == "" && Suffix("README") == ""
  {
    assert "a.tar.gz"[5] == '.' && "a.tar.gz"[6] != '.' && "a.tar.gz"[7] != '.';
    assert "report.PDF"[6] == '.' && forall j :: 6 < j < 10 ==> "report.PDF"[j] != '.';
    assert ".bashrc"[0] == '.' && forall j :: 0 < j < 7 ==> ".bashrc"[j] != '.';
    assert forall j :: 0 <= j < 6 ==> "README"[j] != '.';
  }

  /** The stem, "_", k in decimal, and the suffix: the k-th name tried when the name is already taken. */
  function CollisionName(name: Name, k: nat): Name
  {
    Stem(name) + "_" + NatToString(k) + Suffix(name)
  }

  /** A collision name is never the original name, and different counters give
      different names. */
  lemma CollisionNameFresh(name: Name, j: nat, k: nat)
    ensures CollisionName(name, k) != name
    ensures CollisionName(name, j) == CollisionName(name, k) ==> j == k
  {
    StemSuffixSplit(name);
    var st, su := Stem(name), Suffix(name);
    assert |CollisionName(name, k)| > |name|;
    if CollisionName(name, j) == CollisionName(name, k) {
      var a, b := NatToString(j), NatToString(k);
      assert |a| == |b|;
      assert CollisionName(name, j)[|st| + 1..|st| + 1 + |a|] == a;
      assert CollisionName(name, k)[|st| + 1..|st| + 1 + |b|] == b;
      NatToStringInjective(j, k);
    }
  }

  /** Worked case of the renaming rule: the counter goes before the suffix. */
  lemma CollisionNameExample()
    ensures CollisionName("a.txt", 1) == "a_1.txt"
  {
    assert "a.txt"[1] == '.' && forall j :: 1 < j < 5 ==> "a.txt"[j] != '.';
    assert Stem("a.txt") == "a" && Suffix("a.txt") == ".txt";
    assert NatToString(1) == "1";
  }

  /** Worked case: only the last suffix is kept apart. */
  lemma CollisionNameLastSuffix()
    ensures CollisionName("a.tar.gz", 1) == "a.tar_1.gz"
  {
    assert "a.tar.gz"[5] == '.' && "a.tar.gz"[6] != '.' && "a.tar.gz"[7] != '.';
    assert NatToString(1) == "1";
  }

  /** Worked case: a name without a suffix gains the counter at its end. */
  lemma CollisionNameNoSuffix()
    ensures CollisionName("notes", 12) == "notes_12"
  {
    assert forall j :: 0 <= j < 5 ==> "notes"[j] != '.';
    assert NatToString(12) == "12";
  }

  /** str.split(sep) */
  function Split(s: string, sep: char): (r: seq<string>)
    ensures |r| >= 1
    ensures forall i :: 0 <= i < |r| ==> sep !in r[i]
  {
    if s == [] then [""]
    else
      var rest := Split(s[1..], sep);
      if s[0] == sep then [""] + rest else [[s[0]] + rest[0]] + rest[1..]
  }

  /** A piece without the separator is one field of the split. */
  lemma {:induction false} SplitField(a: string, b: string, sep: char)
    requires sep !in a
    ensures Split(a, sep) == [a]
    ensures Split(a + [sep] + b, sep) == [a] + Split(b, sep)
  {
    if a != [] {
      SplitField(a[1..], b, sep);
      assert (a + [sep] + b)[1..] == a[1..] + [sep] + b;
      assert [a[0]] + a[1..] == a;
    } else {
      assert a + [sep] + b == [sep] + b;
    }
  }

  /** sep.join(parts) */
  function Join(parts: seq<string>, sep: char): string
    requires |parts| >= 1
  {
    if |parts| == 1 then parts[0] else parts[0] + [sep] + Join(parts[1..], sep)
  }

  /** Splitting loses nothing: joining the pieces back gives the string. */
  lemma {:induction false} SplitJoin(s: string, sep: char)
    ensures Join(Split(s, sep), sep) == s
  {
    if s != [] {
      var rest := Split(s[1..], sep);
      SplitJoin(s[1..], sep);
      if s[0] == sep {
        assert Split(s, sep)[1..] == rest;
      } else {
        var r := Split(s, sep);
        if |rest| == 1 {
          assert r == [[s[0]] + rest[0]];
        } else {
          assert r[1..] == rest[1..];
          assert Join(rest, sep) == rest[0] + [sep] + Join(rest[1..], sep);
        }
      }
    }
  }

  /** The components pathlib keeps: no empty ones (repeated or trailing slashes) and
      no ".". */
  function Components(pieces: seq<string>): (r: seq<Name>)
    ensures forall i :: 0 <= i < |r| ==> r[i] in pieces && r[i] != "" && r[i] != "."
  {
    if pieces == [] then []
    else if pieces[0] == "" || pieces[0] == "." then Components(pieces[1..])
    else [pieces[0]] + Components(pieces[1..])
  }

  /** A pathlib path as written: absolute or relative to the working directory. */
  datatype PurePath = PurePath(absolute: bool, parts: seq<Name>)

  /** Where the process runs: the home directory, the working directory, and the home
      directories of other users that "~user" can name. */
  datatype Env = Env(home: Path, cwd: Path, users: map<string, Path>)

  /** Path(s) */
  function ParsePath(s: string): (p: PurePath)
    ensures forall i :: 0 <= i < |p.parts| ==> p.parts[i] != "" && p.parts[i] != "." && '/' !in p.parts[i]
  {
    PurePath(|s| > 0 && s[0] == '/', Components(Split(s, '/')))
  }

  /** .expanduser(): a leading "~" becomes the home directory and "~user" that user's;
      an unknown user raises (None). */
  function ExpandUser(p: PurePath, env: Env): Option<PurePath>
  {
    if p.absolute || p.parts == [] || !(p.parts[0] != "" && p.parts[0][0] == '~') then Some(p)
    else if p.parts[0] == "~" then Some(PurePath(true, env.home + p.parts[1..]))
    else if p.parts[0][1..] in env.users then Some(PurePath(true, env.users[p.parts[0][1..]] + p.parts[1..]))
    else None
  }

  /** The location a pure path names. */
  function Location(p: PurePath, env: Env): Path
  {
    if p.absolute then p.parts else env.cwd + p.parts
  }

  /** .name of a pure path; Path(".").name is "". */
  function PureName(p: PurePath): Name
  {
    if p.parts == [] then "" else p.parts[|p.parts| - 1]
  }

  /** COMMON_FOLDERS: the symbolic names and the folder under the home directory each
      stands for. */
  const CommonFolders: map<string, Name> := map[
    "desktop" := "Desktop", "downloads" := "Downloads", "documents" := "Documents",
    "pictures" := "Pictures", "music" := "Music", "videos" := "Videos"
  ]

  /** The resolution block shared by every operation: a symbolic name (trimmed, any case)
      picks its COMMON_FOLDERS entry; anything else is the argument itself, untrimmed, as
      a path with "~" expanded. */
  function ResolveFolder(input: string, env: Env): Option<PurePath>
  {
    var key := Strip(Lower(input));
    if key in CommonFolders then Some(PurePath(true, env.home + [CommonFolders[key]]))
    else ExpandUser(ParsePath(input), env)
  }

  /** The name of the resolved folder ("" when the argument does not resolve): the name
      the category check and the reports look at. */
  function FolderName(input: string, env: Env): Name
  {
    match ResolveFolder(input, env)
    case None => ""
    case Some(p) => PureName(p)
  }

  /** Only the trimmed, lower-cased spelling of a symbolic name matters: any two spellings
      of the same name resolve alike, to an absolute path, to the COMMON_FOLDERS folder
      directly under the home directory, which is also the folder name reported. */
  lemma SymbolicSpellings(a: string, b: string, env: Env)
    requires Strip(Lower(a)) == Strip(Lower(b)) && Strip(Lower(a)) in CommonFolders
    ensures ResolveFolder(a, env) == ResolveFolder(b, env)
    ensures ResolveFolder(a, env).Some? && ResolveFolder(a, env).value.absolute
    ensures Location(ResolveFolder(a, env).value, env) == env.home + [CommonFolders[Strip(Lower(a))]]
    ensures FolderName(a, env) == FolderName(b, env) == CommonFolders[Strip(Lower(a))]
  {
    var p := PurePath(true, env.home + [CommonFolders[Strip(Lower(a))]]);
    assert ResolveFolder(a, env) == Some(p);
    assert ResolveFolder(b, env) == Some(p);
    assert p.parts[|p.parts| - 1] == CommonFolders[Strip(Lower(a))];
  }

  /** Any spelling of "documents" names the folder Documents. */
  lemma DocumentsName(input: string, env: Env)
    requires Strip(Lower(input)) == "documents"
    ensures FolderName(input, env) == "Documents"
  {
    assert "documents" in CommonFolders && CommonFolders["documents"] == "Documents";
    SymbolicSpellings(input, input, env);
  }

  /** Any other argument is parsed as a path and "~" is expanded. */
  lemma ResolveOther(input: string, env: Env)
    requires Strip(Lower(input)) !in CommonFolders
    ensures ResolveFolder(input, env) == ExpandUser(ParsePath(input), env)
  {
  }

  /** Worked case of the key a symbolic name is matched by: first lower-cased ... */
  lemma LowerExample()
    ensures Lower(" DownLoads\n") == " downloads\n"
  {
  }

  /** ... then trimmed, so " DownLoads\n" is the key "downloads" (see SymbolicSpellings). */
  lemma StripExample()
    ensures Strip(" downloads\n") == "downloads"
  {
    var key := " downloads\n";
    assert |key| == 11 && key[0] == ' ' && key[1] == 'd' && key[10] == '\n' && key[9] == 's';
    StripOneEachSide(key);
    assert key[1..10] == "downloads";
  }

  /** The symbolic names are at least five characters long and hold no slash. */
  lemma CommonFolderKeys()
    ensures forall k :: k in CommonFolders ==> |k| >= 5 && '/' !in k
  {
  }

  /** A name shorter than five characters is no symbolic name. */
  lemma ShortNotCommon(key: string)
    requires |key| < 5
    ensures key !in CommonFolders
  {
    CommonFolderKeys();
  }

  /** A name holding a slash is no symbolic name. */
  lemma NoSlashNotCommon(key: string)
    requires '/' in key
    ensures key !in CommonFolders
  {
    CommonFolderKeys();
  }

  /** A folder argument holding a slash after its first character is never a symbolic
      name. */
  lemma SlashIsNotSymbolic(input: string)
    requires |input| >= 2 && input[1] == '/' && !IsSpace(input[0]) && !IsSpace(input[|input| - 1])
    ensures Strip(Lower(input)) !in CommonFolders
  {
    var lowered := Lower(input);
    LowerCharKeepsNonSpace(input[0]);
    LowerCharKeepsNonSpace(input[|input| - 1]);
    StripKeeps(lowered);
    assert lowered[1] == '/';
    NoSlashNotCommon(lowered);
  }

  /** Path("~/name/"): the trailing slash is dropped and "~" stays a component. */
  lemma ParseHomeChild(name: Name)
    requires name != "" && name != "." && '/' !in name
    ensures ParsePath("~/" + name + "/") == PurePath(false, ["~", name])
  {
    var input := "~/" + name + "/";
    assert input == "~" + ['/'] + (name + ['/'] + "");
    SplitField("~", name + ['/'] + "", '/');
    SplitField(name, "", '/');
    assert Split(input, '/') == ["~", name, ""];
    assert Components(["~", name, ""]) == ["~"] + Components([name, ""]);
    assert Components([name, ""]) == [name] + Components([""]);
  }

  /** "~/name/" stands for the folder name in the home directory. */
  lemma ResolveHomeChild(name: Name, env: Env)
    requires name != "" && name != "." && '/' !in name
    ensures ResolveFolder("~/" + name + "/", env) == Some(PurePath(true, env.home + [name]))
  {
    var input := "~/" + name + "/";
    SlashIsNotSymbolic(input);
    ParseHomeChild(name);
  }

  /** Worked case: "." is the working directory, whose pure path has the empty name. */
  lemma ResolveDotExample(env: Env)
    ensures ResolveFolder(".", env) == Some(PurePath(false, []))
    ensures PureName(PurePath(false, [])) == ""
  {
    ShortNotCommon(Strip(Lower(".")));
    ResolveOther(".", env);
    ParseDot();
  }

  lemma ParseDot()
    ensures ParsePath(".") == PurePath(false, [])
  {
    SplitField(".", "", '/');
    assert Components(["."]) == Components([]);
  }
}
