/**
 * What the operations share: the entries the organizers list (Path.iterdir() of the
 * resolved folder) and skip (directories and hidden files), and the entries the analyses
 * walk (Path.rglob("*")), of which they read the files.
 */
module Scanning {
  import opened Wrappers
  import opened Paths
  import opened FileSystems

  /** The entries the listing of a folder argument returns: those directly inside the
      folder it resolves to; nothing when it does not resolve. */
  function Listed(n: Nodes, input: string, env: Env): set<Path>
  {
    match ResolveFolder(input, env)
    case None => {}
    case Some(p) => Children(n, Location(p, env))
  }

  /** The organizers skip directories and hidden entries. */
  predicate Visible(n: Nodes, item: Path)
  {
    !IsDir(n, item) && !IsHidden(PathName(item))
  }

  /** A folder argument that does not name a directory has nothing to list. */
  lemma NothingListedOutsideDirs(n: Nodes, input: string, env: Env)
    requires WellFormed(n)
    requires ResolveFolder(input, env).Some? ==> !IsDir(n, Location(ResolveFolder(input, env).value, env))
    ensures Listed(n, input, env) == {}
  {
    if ResolveFolder(input, env).Some? {
      NothingInsideNonDirs(n, Location(ResolveFolder(input, env).value, env));
    }
  }

  /** A listed entry that is not skipped is a file directly inside the folder. */
  lemma ListedVisibleIsFile(n: Nodes, input: string, env: Env, item: Path)
    requires item in Listed(n, input, env) && Visible(n, item)
    ensures IsFile(n, item) && !IsHidden(PathName(item))
    ensures ResolveFolder(input, env).Some?
    ensures Parent(item) == Location(ResolveFolder(input, env).value, env)
  {
  }

  /** The entries rglob("*") walks for a folder argument: everything below the folder it
      resolves to; nothing when it does not resolve. */
  function Globbed(n: Nodes, input: string, env: Env): set<Path>
  {
    match ResolveFolder(input, env)
    case None => {}
    case Some(p) => Below(n, Location(p, env))
  }

  /** The entry is a file. */
  function FileIn(n: Nodes): Path -> bool
  {
    item => IsFile(n, item)
  }

  /** The size of a file (only files are ever asked). */
  function SizeIn(n: Nodes): Path -> nat
  {
    item => if IsFile(n, item) then n[item].size else 0
  }

  /** A path as shown: relative to root when it lies below root, else its bare name. */
  function Relative(root: Path, f: Path): Path
  {
    if AtOrBelow(f, root) then f[|root|..] else [PathName(f)]
  }

  function RelativeAll(root: Path, files: seq<Path>): (r: seq<Path>)
    ensures |r| == |files| && forall i :: 0 <= i < |r| ==> r[i] == Relative(root, files[i])
  {
    if files == [] then [] else [Relative(root, files[0])] + RelativeAll(root, files[1..])
  }

  /** Below a common root, different files are shown as different relative paths. */
  lemma RelativeInjective(root: Path, f: Path, g: Path)
    requires AtOrBelow(f, root) && AtOrBelow(g, root) && f != g
    ensures Relative(root, f) != Relative(root, g)
  {
    assert f == root + f[|root|..] && g == root + g[|root|..];
  }
}
