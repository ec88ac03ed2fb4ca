/**
  How the check resolves a relative specifier: the candidate paths in the order
  they are tried, and what the first one that exists comes to.
 */
module ImportResolver {
  import opened Wrappers
  import opened Strings
  import opened ImportClosure

  type Path = string

  datatype FileSystem = FileSystem(
    root: Path,
    files: set<Path>,
    imports: map<Path, seq<Target>>,     // readable files only
    realPath: map<Path, Path>,             // absent: the link target is unreadable
    mainOf: map<Path, Path>,             // directory -> base its "main" resolves to
    join: (Path, string) -> Path         // resolve(file, "..", specifier)
  )

  const RUNNABLE := [".ts", ".tsx", ".js", ".jsx", ".mjs", ".cjs", ".mts", ".cts"]

  function Suffixes(): seq<string> {
    [""] + RUNNABLE + seq(|RUNNABLE|, i requires 0 <= i < |RUNNABLE| => "/index" + RUNNABLE[i])
  }

  predicate EndsWith(s: string, p: string) {
    |p| <= |s| && s[|s| - |p|..] == p
  }

  /** The TypeScript paths an emitted-JavaScript specifier can name. */
  function JsToTsBases(path: Path): seq<Path> {
    if EndsWith(path, ".js") then [path[..|path| - 3] + ".ts", path[..|path| - 3] + ".tsx"]
    else if EndsWith(path, ".jsx") then [path[..|path| - 4] + ".tsx"]
    else if EndsWith(path, ".mjs") then [path[..|path| - 4] + ".mts"]
    else if EndsWith(path, ".cjs") then [path[..|path| - 4] + ".cts"]
    else []
  }

  function WithSuffixes(base: Path): seq<Path> {
    seq(|Suffixes()|, i requires 0 <= i < |Suffixes()| => base + Suffixes()[i])
  }

  function ExpandAll(bases: seq<Path>): seq<Path> {
    if bases == [] then [] else WithSuffixes(bases[0]) + ExpandAll(bases[1..])
  }

  function Expand(base: Path): seq<Path> {
    ExpandAll([base] + JsToTsBases(base))
  }

  function FirstExisting(files: set<Path>, candidates: seq<Path>): Option<Path> {
    if candidates == [] then None
    else if candidates[0] in files then Some(candidates[0])
    else FirstExisting(files, candidates[1..])
  }

  /** A directory's "main" is itself resolved like a specifier. */
  function PackageMain(fs: FileSystem, dir: Path): Option<Path> {
    if dir in fs.mainOf then FirstExisting(fs.files, Expand(fs.mainOf[dir])) else None
  }

  function Candidates(fs: FileSystem, file: Path, spec: string): seq<Path> {
    var written := fs.join(file, spec);
    match PackageMain(fs, written)
    case Some(main) => [main] + Expand(written)
    case None => Expand(written)
  }

  function LastSlash(s: string): nat
    ensures LastSlash(s) <= |s|
  {
    if s == [] then 0 else if s[|s| - 1] == '/' then |s| else LastSlash(s[..|s| - 1])
  }

  function LastDot(s: string): Option<nat>
    ensures LastDot(s).Some? ==> LastDot(s).value < |s|
  {
    if s == [] then None else if s[|s| - 1] == '.' then Some(|s| - 1) else LastDot(s[..|s| - 1])
  }

  function Lower(s: string): string {
    seq(|s|, i requires 0 <= i < |s| => if 'A' <= s[i] <= 'Z' then s[i] - 'A' + 'a' else s[i])
  }

  /** The extension that decides whether a file is data; none is not data. */
  function Extension(path: Path): string {
    match LastDot(path)
    case Some(k) => if k >= LastSlash(path) then Lower(path)[k..] else ""
    case None => ""
  }

  function Follow(fs: FileSystem, file: Path, spec: string): Outcome<Path> {
    match FirstExisting(fs.files, Candidates(fs, file, spec))
    case None => Nothing
    case Some(c) =>
      var target := if c in fs.realPath then fs.realPath[c] else c;
      if Includes(target, "/node_modules/") then Vendored
      else if !StartsWith(target, fs.root + "/") then Outside
      else if Extension(c) != "" && Extension(c) !in RUNNABLE then Data
      else Code(c)
  }

  /** The repository the worklist walks. */
  function RepoOf(fs: FileSystem): Repo<Path> {
    Repo(fs.files, fs.imports, (file, spec) => Follow(fs, file, spec))
  }

  lemma {:induction false} FirstExistingIsFirst(files: set<Path>, candidates: seq<Path>)
    ensures
      match FirstExisting(files, candidates)
      case None => forall i :: 0 <= i < |candidates| ==> candidates[i] !in files
      case Some(c) => exists i :: 0 <= i < |candidates| && candidates[i] == c && c in files
                                  && forall j :: 0 <= j < i ==> candidates[j] !in files
  {
    if candidates != [] {
      if candidates[0] !in files {
        FirstExistingIsFirst(files, candidates[1..]);
        match FirstExisting(files, candidates[1..])
        case None =>
        case Some(c) =>
          var i :| 0 <= i < |candidates[1..]| && candidates[1..][i] == c && c in files
                   && forall j :: 0 <= j < i ==> candidates[1..][j] !in files;
          assert candidates[i + 1] == c;
          assert forall j :: 0 <= j < i + 1 ==> j == 0 || candidates[j] == candidates[1..][j - 1];
      }
    }
  }

  lemma RepoResolves(fs: FileSystem)
    ensures RepoOf(fs).Resolves()
  {
    forall file, spec | RepoOf(fs).follow(file, spec).Code?
      ensures RepoOf(fs).follow(file, spec).path in fs.files
    {
      FirstExistingIsFirst(fs.files, Candidates(fs, file, spec));
    }
  }
}
