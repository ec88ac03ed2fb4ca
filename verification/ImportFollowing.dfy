/**
  What comes of a relative import, said of paths and files alone: which file a specifier
  finds, when that file is read as code, and what an empty report therefore promises
  about the files of a repository.
 */
module ImportFollowing {
  import opened Wrappers
  import opened Strings
  import opened ImportClosure
  import opened ImportResolver

  // ------------------------------------------------------------------ names of files

  /** `c` is the letter `l`, or its capital. */
  predicate SameLetter(c: char, l: char) {
    c == l || ('a' <= l <= 'z' && c as int == l as int - 32)
  }

  /** The path ends in a suffix, in letters of either case. */
  ghost predicate EndsIn(path: Path, suffix: string) {
    |suffix| <= |path|
      && forall k :: 0 <= k < |suffix| ==> SameLetter(path[|path| - |suffix| + k], suffix[k])
  }

  /** A TypeScript or JavaScript file: plain, with JSX, or marked as a module or as CommonJS. */
  ghost predicate IsRunnable(path: Path) {
    EndsInForm(path, "ts") || EndsInForm(path, "js")
  }

  ghost predicate EndsInForm(path: Path, l: string) {
    EndsIn(path, "." + l) || EndsIn(path, "." + (l + "x")) || EndsIn(path, ".m" + l) || EndsIn(path, ".c" + l)
  }

  /** There is a dot in the last segment of the path. */
  ghost predicate HasExtension(path: Path) {
    exists k :: 0 <= k < |path| && path[k] == '.' && forall j :: k < j < |path| ==> path[j] != '/'
  }

  /** A file with an extension that is not runnable; one without any is not data. */
  ghost predicate IsDataName(path: Path) {
    HasExtension(path) && !IsRunnable(path)
  }

  lemma {:induction false} LastDotIsLast(s: string)
    ensures LastDot(s) == None ==> forall j :: 0 <= j < |s| ==> s[j] != '.'
    ensures LastDot(s).Some? ==>
      s[LastDot(s).value] == '.' && forall j :: LastDot(s).value < j < |s| ==> s[j] != '.'
  {
    if s != "" {
      LastDotIsLast(s[..|s| - 1]);
    }
  }

  lemma {:induction false} LastSlashIsLast(s: string)
    ensures forall j :: LastSlash(s) <= j < |s| ==> s[j] != '/'
    ensures LastSlash(s) > 0 ==> s[LastSlash(s) - 1] == '/'
  {
    if s != "" {
      LastSlashIsLast(s[..|s| - 1]);
    }
  }

  lemma LowerIs(path: Path, i: nat, l: char)
    requires i < |path| && (l == '.' || 'a' <= l <= 'z')
    ensures Lower(path)[i] == l <==> SameLetter(path[i], l)
  {
  }

  /** The extension is what follows the last dot of the last segment. */
  lemma ExtensionAt(path: Path, k: nat)
    requires k < |path| && path[k] == '.' && forall j :: k < j < |path| ==> path[j] != '.' && path[j] != '/'
    ensures Extension(path) == Lower(path)[k..]
  {
    LastDotIsLast(path);
    LastSlashIsLast(path);
  }

  lemma EmptyExtension(path: Path)
    ensures Extension(path) == "" <==> !HasExtension(path)
  {
    LastDotIsLast(path);
    LastSlashIsLast(path);
    if Extension(path) != "" {
      assert path[LastDot(path).value] == '.';
    }
  }

  /** A suffix with its only dot in front, and small letters behind it. */
  predicate IsSuffix(e: string) {
    |e| > 1 && e[0] == '.' && forall i :: 1 <= i < |e| ==> 'a' <= e[i] <= 'z'
  }

  lemma ExtensionIs(path: Path, e: string)
    requires IsSuffix(e)
    ensures Extension(path) == e <==> EndsIn(path, e)
  {
    var k := |path| - |e|;
    if EndsIn(path, e) {
      assert SameLetter(path[k + 0], e[0]);
      forall j ensures k < j < |path| ==> path[j] != '.' && path[j] != '/' {
        if k < j < |path| {
          assert SameLetter(path[k + (j - k)], e[j - k]);
        }
      }
      ExtensionAt(path, k);
      forall j | 0 <= j < |e| ensures Lower(path)[k..][j] == e[j] {
        assert SameLetter(path[k + j], e[j]);
        LowerIs(path, k + j, e[j]);
      }
      assert Lower(path)[k..] == e;
    }
    if Extension(path) == e {
      var d := LastDot(path).value;
      assert d == k;
      forall j | 0 <= j < |e| ensures SameLetter(path[k + j], e[j]) {
        assert Lower(path)[k..][j] == e[j];
        LowerIs(path, k + j, e[j]);
      }
    }
  }

  lemma SuffixesAre(path: Path)
    ensures IsRunnable(path) <==> exists i :: 0 <= i < |RUNNABLE| && EndsIn(path, RUNNABLE[i])
  {
    assert "." + "ts" == RUNNABLE[0] && "." + ("ts" + "x") == RUNNABLE[1];
    assert "." + "js" == RUNNABLE[2] && "." + ("js" + "x") == RUNNABLE[3];
    assert ".m" + "js" == RUNNABLE[4] && ".c" + "js" == RUNNABLE[5];
    assert ".m" + "ts" == RUNNABLE[6] && ".c" + "ts" == RUNNABLE[7];
  }

  lemma RunnableIff(path: Path)
    ensures Extension(path) in RUNNABLE <==> IsRunnable(path)
  {
    forall i | 0 <= i < |RUNNABLE| ensures Extension(path) == RUNNABLE[i] <==> EndsIn(path, RUNNABLE[i]) {
      ExtensionIs(path, RUNNABLE[i]);
    }
    SuffixesAre(path);
  }

  // ------------------------------------------------------------------ the file found

  /** What exists and comes first among the paths a base stands for. */
  ghost predicate NamesFirst(files: set<Path>, base: Path, found: Path) {
    if base in files then found == base
    else if exists i :: 0 <= i < |RUNNABLE| && base + RUNNABLE[i] in files then
      exists i :: IsFirstForm(files, base, "", i, found)
    else exists i :: IsFirstForm(files, base, "/index", i, found)
  }

  /** `found` is the base with the first runnable suffix that makes it a file. */
  ghost predicate IsFirstForm(files: set<Path>, base: Path, index: string, i: int, found: Path) {
    && 0 <= i < |RUNNABLE| && found == base + (index + RUNNABLE[i]) && found in files
    && forall j :: 0 <= j < i ==> base + (index + RUNNABLE[j]) !in files
  }

  ghost predicate NamesNone(files: set<Path>, base: Path) {
    && base !in files
    && forall i :: 0 <= i < |RUNNABLE| ==> base + RUNNABLE[i] !in files && base + ("/index" + RUNNABLE[i]) !in files
  }

  lemma {:induction false} FirstOf(files: set<Path>, candidates: seq<Path>, k: nat)
    requires k < |candidates| && candidates[k] in files
    requires forall j :: 0 <= j < k ==> candidates[j] !in files
    ensures FirstExisting(files, candidates) == Some(candidates[k])
  {
    FirstExistingIsFirst(files, candidates);
    var i :| 0 <= i < |candidates| && Some(candidates[i]) == FirstExisting(files, candidates)
             && candidates[i] in files && forall j :: 0 <= j < i ==> candidates[j] !in files;
    assert i == k;
  }

  lemma {:induction false} FirstOfBoth(files: set<Path>, a: seq<Path>, b: seq<Path>)
    ensures FirstExisting(files, a + b)
      == if FirstExisting(files, a).Some? then FirstExisting(files, a) else FirstExisting(files, b)
  {
    if a == [] {
      assert a + b == b;
    } else {
      FirstOfBoth(files, a[1..], b);
      assert (a + b)[1..] == a[1..] + b;
    }
  }

  /** The seventeen paths of a base: as written, with each suffix, as a directory's index. */
  lemma FormAt(base: Path, i: nat)
    requires i < |RUNNABLE|
    ensures |WithSuffixes(base)| == 1 + 2 * |RUNNABLE|
    ensures WithSuffixes(base)[0] == base
    ensures WithSuffixes(base)[1 + i] == base + RUNNABLE[i]
    ensures WithSuffixes(base)[1 + |RUNNABLE| + i] == base + ("/index" + RUNNABLE[i])
  {
    assert base + "" == base;
    assert Suffixes()[1 + i] == RUNNABLE[i];
    assert Suffixes()[1 + |RUNNABLE| + i] == "/index" + RUNNABLE[i];
  }

  lemma FirstFormTaken(files: set<Path>, base: Path, i: nat)
    requires i < |RUNNABLE| && IsFirstForm(files, base, "", i, base + RUNNABLE[i]) && base !in files
    ensures FirstExisting(files, WithSuffixes(base)) == Some(base + RUNNABLE[i])
  {
    FormAt(base, i);
    assert "" + RUNNABLE[i] == RUNNABLE[i];
    forall j | 0 <= j < 1 + i ensures WithSuffixes(base)[j] !in files {
      if j > 0 {
        FormAt(base, j - 1);
        assert "" + RUNNABLE[j - 1] == RUNNABLE[j - 1];
      }
    }
    FirstOf(files, WithSuffixes(base), 1 + i);
  }

  lemma IndexTaken(files: set<Path>, base: Path, i: nat)
    requires i < |RUNNABLE| && base !in files
    requires IsFirstForm(files, base, "/index", i, base + ("/index" + RUNNABLE[i]))
    requires forall j :: 0 <= j < |RUNNABLE| ==> base + RUNNABLE[j] !in files
    ensures FirstExisting(files, WithSuffixes(base)) == Some(base + ("/index" + RUNNABLE[i]))
  {
    FormAt(base, i);
    forall j | 0 <= j < 1 + |RUNNABLE| + i ensures WithSuffixes(base)[j] !in files {
      FormAt(base, 0);
      if 0 < j <= |RUNNABLE| {
        FormAt(base, j - 1);
      } else if j > 0 {
        FormAt(base, j - 1 - |RUNNABLE|);
      }
    }
    FirstOf(files, WithSuffixes(base), 1 + |RUNNABLE| + i);
  }

  /** The path as written, then a file with a suffix, then an index file. */
  lemma NamedFirst(files: set<Path>, base: Path, found: Path)
    requires NamesFirst(files, base, found)
    ensures found in files && FirstExisting(files, WithSuffixes(base)) == Some(found)
  {
    if base in files {
      FormAt(base, 0);
    } else if exists i :: 0 <= i < |RUNNABLE| && base + RUNNABLE[i] in files {
      var i :| IsFirstForm(files, base, "", i, found);
      assert base + ("" + RUNNABLE[i]) == base + RUNNABLE[i];
      FirstFormTaken(files, base, i);
    } else {
      var i :| IsFirstForm(files, base, "/index", i, found);
      IndexTaken(files, base, i);
    }
  }

  lemma NamedNone(files: set<Path>, base: Path)
    requires NamesNone(files, base)
    ensures FirstExisting(files, WithSuffixes(base)) == None
  {
    FirstExistingIsFirst(files, WithSuffixes(base));
    forall j | 0 <= j < |WithSuffixes(base)| ensures WithSuffixes(base)[j] !in files {
      FormAt(base, 0);
      if 0 < j <= |RUNNABLE| {
        FormAt(base, j - 1);
      } else if j > 0 {
        FormAt(base, j - 1 - |RUNNABLE|);
      }
    }
  }

  lemma LeastForm(files: set<Path>, base: Path, index: string, n: nat) returns (i: nat)
    requires n < |RUNNABLE| && base + (index + RUNNABLE[n]) in files
    ensures i < |RUNNABLE| && IsFirstForm(files, base, index, i, base + (index + RUNNABLE[i]))
  {
    i := 0;
    while base + (index + RUNNABLE[i]) !in files
      invariant 0 <= i <= n && forall j :: 0 <= j < i ==> base + (index + RUNNABLE[j]) !in files
      decreases n - i
    {
      i := i + 1;
    }
  }

  lemma NamesSomeOrNone(files: set<Path>, base: Path)
    ensures NamesNone(files, base) || exists found :: NamesFirst(files, base, found)
  {
    if base in files {
      assert NamesFirst(files, base, base);
    } else if i :| 0 <= i < |RUNNABLE| && base + RUNNABLE[i] in files {
      assert "" + RUNNABLE[i] == RUNNABLE[i];
      var k := LeastForm(files, base, "", i);
      assert NamesFirst(files, base, base + ("" + RUNNABLE[k]));
    } else if i :| 0 <= i < |RUNNABLE| && base + ("/index" + RUNNABLE[i]) in files {
      var k := LeastForm(files, base, "/index", i);
      assert NamesFirst(files, base, base + ("/index" + RUNNABLE[k]));
    }
  }

  /** The TypeScript paths whose emitted file has this path, each form of it. */
  ghost predicate Emitting(path: Path, sources: seq<Path>) {
    && (forall d :: path == d + ".js" ==> sources == [d + ".ts", d + ".tsx"])
    && (forall d :: path == d + ".jsx" ==> sources == [d + ".tsx"])
    && (forall d :: path == d + ".mjs" ==> sources == [d + ".mts"])
    && (forall d :: path == d + ".cjs" ==> sources == [d + ".cts"])
    && ((forall d :: path != d + ".js" && path != d + ".jsx" && path != d + ".mjs" && path != d + ".cjs")
      ==> sources == [])
  }

  lemma Stem(path: Path, d: Path, suffix: string)
    requires path == d + suffix
    ensures EndsWith(path, suffix) && path[..|path| - |suffix|] == d
  {
  }

  lemma NoStem(path: Path, suffix: string)
    requires EndsWith(path, suffix)
    ensures path == path[..|path| - |suffix|] + suffix
  {
  }

  lemma SourcesOfEmitted(path: Path)
    ensures Emitting(path, JsToTsBases(path))
  {
    forall d ensures path == d + ".js" ==> JsToTsBases(path) == [d + ".ts", d + ".tsx"] {
      if path == d + ".js" { Stem(path, d, ".js"); }
    }
    forall d ensures path == d + ".jsx" ==> JsToTsBases(path) == [d + ".tsx"] {
      if path == d + ".jsx" { Stem(path, d, ".jsx"); assert path[|path| - 1] == 'x'; }
    }
    forall d ensures path == d + ".mjs" ==> JsToTsBases(path) == [d + ".mts"] {
      if path == d + ".mjs" { Stem(path, d, ".mjs"); assert path[|path| - 3] == 'm'; }
    }
    forall d ensures path == d + ".cjs" ==> JsToTsBases(path) == [d + ".cts"] {
      if path == d + ".cjs" { Stem(path, d, ".cjs"); assert path[|path| - 3] == 'c'; }
    }
    if JsToTsBases(path) != [] {
      if EndsWith(path, ".js") { NoStem(path, ".js"); }
      else if EndsWith(path, ".jsx") { NoStem(path, ".jsx"); }
      else if EndsWith(path, ".mjs") { NoStem(path, ".mjs"); }
      else { NoStem(path, ".cjs"); }
    }
  }

  /** What a list of bases names: the first file of the first base that names any. */
  ghost predicate FoundAmong(files: set<Path>, bases: seq<Path>, found: Path) {
    exists k :: 0 <= k < |bases| && NamesFirst(files, bases[k], found)
      && forall j :: 0 <= j < k ==> NamesNone(files, bases[j])
  }

  ghost predicate NoneAmong(files: set<Path>, bases: seq<Path>) {
    forall j :: 0 <= j < |bases| ==> NamesNone(files, bases[j])
  }

  lemma {:induction false} FoundAmongIs(files: set<Path>, bases: seq<Path>, found: Path)
    requires FoundAmong(files, bases, found)
    ensures found in files && FirstExisting(files, ExpandAll(bases)) == Some(found)
  {
    var k :| 0 <= k < |bases| && NamesFirst(files, bases[k], found)
             && forall j :: 0 <= j < k ==> NamesNone(files, bases[j]);
    FirstOfBoth(files, WithSuffixes(bases[0]), ExpandAll(bases[1..]));
    if k == 0 {
      NamedFirst(files, bases[0], found);
    } else {
      NamedNone(files, bases[0]);
      assert bases[1..][k - 1] == bases[k];
      assert forall j :: 0 <= j < k - 1 ==> bases[1..][j] == bases[j + 1];
      FoundAmongIs(files, bases[1..], found);
    }
  }

  lemma {:induction false} NoneAmongIs(files: set<Path>, bases: seq<Path>)
    requires NoneAmong(files, bases)
    ensures FirstExisting(files, ExpandAll(bases)) == None
  {
    if bases != [] {
      FirstOfBoth(files, WithSuffixes(bases[0]), ExpandAll(bases[1..]));
      NamedNone(files, bases[0]);
      assert forall j :: 0 <= j < |bases[1..]| ==> bases[1..][j] == bases[j + 1];
      NoneAmongIs(files, bases[1..]);
    }
  }

  lemma {:induction false} SomeOrNoneAmong(files: set<Path>, bases: seq<Path>)
    ensures NoneAmong(files, bases) || exists found :: FoundAmong(files, bases, found)
  {
    if bases != [] {
      NamesSomeOrNone(files, bases[0]);
      if found :| NamesFirst(files, bases[0], found) {
        assert FoundAmong(files, bases, found);
      } else {
        SomeOrNoneAmong(files, bases[1..]);
        if found :| FoundAmong(files, bases[1..], found) {
          var k :| 0 <= k < |bases[1..]| && NamesFirst(files, bases[1..][k], found)
                   && forall j :: 0 <= j < k ==> NamesNone(files, bases[1..][j]);
          assert bases[k + 1] == bases[1..][k];
          forall j | 0 <= j < k + 1 ensures NamesNone(files, bases[j]) {
            if j > 0 { assert bases[1..][j - 1] == bases[j]; }
          }
          assert FoundAmong(files, bases, found);
        } else {
          forall j | 0 <= j < |bases| ensures NamesNone(files, bases[j]) {
            if j > 0 { assert bases[1..][j - 1] == bases[j]; }
          }
        }
      }
    }
  }

  /** The file a resolved specifier names: itself or a form of it, else that of its TypeScript source. */
  ghost predicate Names(files: set<Path>, base: Path, found: Path) {
    exists sources :: Emitting(base, sources) && FoundAmong(files, [base] + sources, found)
  }

  ghost predicate NamesNothing(files: set<Path>, base: Path) {
    exists sources :: Emitting(base, sources) && NoneAmong(files, [base] + sources)
  }

  lemma OneList(path: Path, a: seq<Path>, b: seq<Path>)
    requires Emitting(path, a) && Emitting(path, b)
    ensures a == b
  {
  }

  lemma NamesIs(files: set<Path>, base: Path)
    ensures match FirstExisting(files, Expand(base))
      case Some(c) => c in files && Names(files, base, c)
      case None => NamesNothing(files, base)
    ensures forall c :: Names(files, base, c) ==> FirstExisting(files, Expand(base)) == Some(c)
    ensures NamesNothing(files, base) ==> FirstExisting(files, Expand(base)) == None
  {
    SourcesOfEmitted(base);
    var bases := [base] + JsToTsBases(base);
    forall c | Names(files, base, c) ensures FirstExisting(files, Expand(base)) == Some(c) {
      var sources :| Emitting(base, sources) && FoundAmong(files, [base] + sources, c);
      OneList(base, sources, JsToTsBases(base));
      FoundAmongIs(files, bases, c);
    }
    if NamesNothing(files, base) {
      var sources :| Emitting(base, sources) && NoneAmong(files, [base] + sources);
      OneList(base, sources, JsToTsBases(base));
      NoneAmongIs(files, bases);
    }
    SomeOrNoneAmong(files, bases);
    if c :| FoundAmong(files, bases, c) {
      FoundAmongIs(files, bases, c);
    } else {
      NoneAmongIs(files, bases);
    }
  }

  // ---------------------------------------------------------------- what comes of it

  /** The `main` of a manifest in a directory of that path names this file. */
  ghost predicate MainNames(fs: FileSystem, dir: Path, found: Path) {
    dir in fs.mainOf && Names(fs.files, fs.mainOf[dir], found)
  }

  ghost predicate NoMain(fs: FileSystem, dir: Path) {
    dir in fs.mainOf ==> NamesNothing(fs.files, fs.mainOf[dir])
  }

  /** The import of `spec` in `file` loads `found`: a package `main` comes first. */
  ghost predicate Imports(fs: FileSystem, file: Path, spec: string, found: Path) {
    var written := fs.join(file, spec);
    MainNames(fs, written, found) || (NoMain(fs, written) && Names(fs.files, written, found))
  }

  ghost predicate ImportsNothing(fs: FileSystem, file: Path, spec: string) {
    NoMain(fs, fs.join(file, spec)) && NamesNothing(fs.files, fs.join(file, spec))
  }

  /** The file is the link's target, or itself when that cannot be read. */
  ghost predicate LeadsTo(fs: FileSystem, path: Path, target: Path) {
    (path in fs.realPath && target == fs.realPath[path]) || (path !in fs.realPath && target == path)
  }

  ghost predicate IsVendored(fs: FileSystem, path: Path) {
    exists target :: LeadsTo(fs, path, target) && Occurs("/node_modules/", target)
  }

  ghost predicate IsInside(fs: FileSystem, path: Path) {
    exists target :: LeadsTo(fs, path, target) && fs.root + "/" <= target
  }

  lemma MainIs(fs: FileSystem, dir: Path)
    ensures match PackageMain(fs, dir)
      case Some(c) => c in fs.files && MainNames(fs, dir, c)
      case None => NoMain(fs, dir)
    ensures forall c :: MainNames(fs, dir, c) ==> PackageMain(fs, dir) == Some(c)
    ensures NoMain(fs, dir) ==> PackageMain(fs, dir) == None
  {
    if dir in fs.mainOf {
      NamesIs(fs.files, fs.mainOf[dir]);
    }
  }

  lemma FoundIs(fs: FileSystem, file: Path, spec: string)
    ensures match FirstExisting(fs.files, Candidates(fs, file, spec))
      case Some(c) => c in fs.files && Imports(fs, file, spec, c)
      case None => ImportsNothing(fs, file, spec)
    ensures forall c :: Imports(fs, file, spec, c) ==>
      FirstExisting(fs.files, Candidates(fs, file, spec)) == Some(c)
  {
    var written := fs.join(file, spec);
    MainIs(fs, written);
    NamesIs(fs.files, written);
    match PackageMain(fs, written)
    case Some(main) =>
      assert Candidates(fs, file, spec)[0] == main;
    case None =>
  }

  /** Every specifier loads one file or nothing. */
  lemma LoadsOne(fs: FileSystem, file: Path, spec: string)
    ensures ImportsNothing(fs, file, spec) || exists c :: Imports(fs, file, spec, c)
    ensures forall c, d :: Imports(fs, file, spec, c) && Imports(fs, file, spec, d) ==> c == d
  {
    FoundIs(fs, file, spec);
  }

  /**
    What following an import comes to, by the file it loads: vendored, outside the
    repository, data, or code that is read.
   */
  lemma FollowIs(fs: FileSystem, file: Path, spec: string, c: Path)
    requires Imports(fs, file, spec, c)
    ensures Follow(fs, file, spec) == Vendored <==> IsVendored(fs, c)
    ensures Follow(fs, file, spec) == Outside <==> !IsVendored(fs, c) && !IsInside(fs, c)
    ensures Follow(fs, file, spec) == Data <==> !IsVendored(fs, c) && IsInside(fs, c) && IsDataName(c)
    ensures Follow(fs, file, spec) == Code(c) <==> !IsVendored(fs, c) && IsInside(fs, c) && !IsDataName(c)
  {
    FoundIs(fs, file, spec);
    var target := if c in fs.realPath then fs.realPath[c] else c;
    assert LeadsTo(fs, c, target);
    assert StartsWith(target, fs.root + "/") <==> fs.root + "/" <= target;
    IncludesIff(target, "/node_modules/");
    EmptyExtension(c);
    RunnableIff(c);
  }

  lemma NothingIff(fs: FileSystem, file: Path, spec: string)
    ensures Follow(fs, file, spec) == Nothing <==> ImportsNothing(fs, file, spec)
  {
    FoundIs(fs, file, spec);
    var written := fs.join(file, spec);
    MainIs(fs, written);
    NamesIs(fs.files, written);
  }

  /** A repository file with a runnable name that a specifier names exactly is read. */
  lemma ExactFileIsRead(fs: FileSystem, file: Path, spec: string)
    requires fs.join(file, spec) in fs.files && IsRunnable(fs.join(file, spec))
    requires NoMain(fs, fs.join(file, spec))
    requires !IsVendored(fs, fs.join(file, spec)) && IsInside(fs, fs.join(file, spec))
    ensures Follow(fs, file, spec) == Code(fs.join(file, spec))
  {
    var written := fs.join(file, spec);
    SourcesOfEmitted(written);
    assert NamesFirst(fs.files, ([written] + JsToTsBases(written))[0], written);
    assert FoundAmong(fs.files, [written] + JsToTsBases(written), written);
    FollowIs(fs, file, spec, written);
  }

  // ------------------------------------------------------------------- the whole walk

  /** The import of `spec` in `file` loads code, and that file is reached; or it loads data. */
  ghost predicate IsRead(fs: FileSystem, entrypoints: seq<Path>, file: Path, spec: string) {
    exists c :: Imports(fs, file, spec, c) && !IsVendored(fs, c) && IsInside(fs, c)
      && (!IsDataName(c) ==> Reached(RepoOf(fs), entrypoints, c))
  }

  /** Nothing in the report: no relative import of a reached file goes unread. */
  lemma NothingUnread(fs: FileSystem, entrypoints: seq<Path>, file: Path, i: nat)
    requires forall r :: !Justified(RepoOf(fs), entrypoints, r)
    requires Reached(RepoOf(fs), entrypoints, file) && file in fs.imports && i < |fs.imports[file]|
    ensures
      var t := fs.imports[file][i];
      t.Specifier? && (Dotted(t.text) ==> IsRead(fs, entrypoints, file, t.text))
  {
    EmptyReportFollowsAll(RepoOf(fs), entrypoints, file, i);
    var t := fs.imports[file][i];
    if IsRelative(t.text) {
      LoadsOne(fs, file, t.text);
      NothingIff(fs, file, t.text);
      var c :| Imports(fs, file, t.text, c);
      FollowIs(fs, file, t.text, c);
    }
  }

  /** A relative specifier starts with a dot. */
  predicate Dotted(spec: string) {
    spec != "" && spec[0] == '.'
  }

  /** A reached file has this import. */
  ghost predicate Asks(fs: FileSystem, entrypoints: seq<Path>, file: Path, t: Target) {
    Reached(RepoOf(fs), entrypoints, file) && file in fs.imports && t in fs.imports[file]
  }

  /** What a specifier loads lies in a dependency or outside the repository, or it loads nothing. */
  ghost predicate CannotRead(fs: FileSystem, file: Path, spec: string) {
    ImportsNothing(fs, file, spec) ||
      exists c :: Imports(fs, file, spec, c) && (IsVendored(fs, c) || !IsInside(fs, c))
  }

  lemma NotReadIff(fs: FileSystem, file: Path, spec: string)
    ensures CannotRead(fs, file, spec) <==> Follow(fs, file, spec) in {Nothing, Vendored, Outside}
  {
    LoadsOne(fs, file, spec);
    NothingIff(fs, file, spec);
    if c :| Imports(fs, file, spec, c) {
      FollowIs(fs, file, spec, c);
      FoundIs(fs, file, spec);
    }
  }

  lemma OutsideIff(fs: FileSystem, file: Path, spec: string)
    ensures Follow(fs, file, spec) == Outside <==>
      exists c :: Imports(fs, file, spec, c) && !IsVendored(fs, c) && !IsInside(fs, c)
  {
    LoadsOne(fs, file, spec);
    NothingIff(fs, file, spec);
    if c :| Imports(fs, file, spec, c) {
      FollowIs(fs, file, spec, c);
    }
  }

  lemma AsksIff(fs: FileSystem, entrypoints: seq<Path>, r: Unfollowed<Path>)
    ensures Justified(RepoOf(fs), entrypoints, r) <==>
      exists file, t :: Asks(fs, entrypoints, file, t) && r in Reports(RepoOf(fs), file, t)
  {
    if file, t :| Asks(fs, entrypoints, file, t) && r in Reports(RepoOf(fs), file, t) {
      var i :| 0 <= i < |fs.imports[file]| && fs.imports[file][i] == t;
      assert r in Reports(RepoOf(fs), file, RepoOf(fs).imports[file][i]);
    }
    if Justified(RepoOf(fs), entrypoints, r) {
      var file, i :| Reached(RepoOf(fs), entrypoints, file) && file in fs.imports
        && 0 <= i < |fs.imports[file]| && r in Reports(RepoOf(fs), file, fs.imports[file][i]);
      assert Asks(fs, entrypoints, file, fs.imports[file][i]);
    }
  }

  lemma ComputedIff(fs: FileSystem, entrypoints: seq<Path>, file: Path, line: nat)
    ensures Justified(RepoOf(fs), entrypoints, Computed(file, line)) <==>
      Asks(fs, entrypoints, file, ComputedTarget(line))
  {
    AsksIff(fs, entrypoints, Computed(file, line));
    if Asks(fs, entrypoints, file, ComputedTarget(line)) {
      assert Computed(file, line) in Reports(RepoOf(fs), file, ComputedTarget(line));
    }
  }

  lemma SpecifierReport(fs: FileSystem, file: Path, spec: string)
    ensures Unresolved(file, spec) in Reports(RepoOf(fs), file, Specifier(spec)) <==>
      Dotted(spec) && CannotRead(fs, file, spec)
    ensures OutsideRepo(file, spec) in Reports(RepoOf(fs), file, Specifier(spec)) <==>
      Dotted(spec) && exists c :: Imports(fs, file, spec, c) && !IsVendored(fs, c) && !IsInside(fs, c)
  {
    NotReadIff(fs, file, spec);
    OutsideIff(fs, file, spec);
    assert IsRelative(spec) <==> Dotted(spec);
  }

  lemma SpecifierIff(fs: FileSystem, entrypoints: seq<Path>, r: Unfollowed<Path>)
    requires !r.Computed?
    ensures Justified(RepoOf(fs), entrypoints, r) <==>
      Asks(fs, entrypoints, r.file, Specifier(r.spec)) && r in Reports(RepoOf(fs), r.file, Specifier(r.spec))
  {
    AsksIff(fs, entrypoints, r);
  }

  /** What the report says: the computed imports of reached files, and their relative ones that cannot be read. */
  lemma ReportedIff(fs: FileSystem, entrypoints: seq<Path>, file: Path, line: nat, spec: string)
    ensures Justified(RepoOf(fs), entrypoints, Computed(file, line)) <==>
      Asks(fs, entrypoints, file, ComputedTarget(line))
    ensures Justified(RepoOf(fs), entrypoints, Unresolved(file, spec)) <==>
      Asks(fs, entrypoints, file, Specifier(spec)) && Dotted(spec) && CannotRead(fs, file, spec)
    ensures Justified(RepoOf(fs), entrypoints, OutsideRepo(file, spec)) <==>
      Asks(fs, entrypoints, file, Specifier(spec)) && Dotted(spec)
      && exists c :: Imports(fs, file, spec, c) && !IsVendored(fs, c) && !IsInside(fs, c)
  {
    ComputedIff(fs, entrypoints, file, line);
    SpecifierIff(fs, entrypoints, Unresolved(file, spec));
    SpecifierIff(fs, entrypoints, OutsideRepo(file, spec));
    SpecifierReport(fs, file, spec);
  }

  /** What the walk over a repository gives; the last clause is what an empty report is worth. */
  method FollowImports(fs: FileSystem, entrypoints: seq<Path>)
    returns (files: set<Path>, unfollowed: seq<Unfollowed<Path>>)
    ensures forall f :: f in files <==> Reached(RepoOf(fs), entrypoints, f)
    ensures forall r :: r in unfollowed <==> Justified(RepoOf(fs), entrypoints, r)
    ensures unfollowed == [] ==> forall f, i ::
      f in files && f in fs.imports && 0 <= i < |fs.imports[f]|
        && fs.imports[f][i].Specifier? && Dotted(fs.imports[f][i].text) ==>
        IsRead(fs, entrypoints, f, fs.imports[f][i].text)
  {
    RepoResolves(fs);
    files, unfollowed := WithLocalImports(RepoOf(fs), entrypoints);
    if unfollowed == [] {
      forall f, i: nat | f in files && f in fs.imports && i < |fs.imports[f]|
        ensures fs.imports[f][i].Specifier? && Dotted(fs.imports[f][i].text) ==>
          IsRead(fs, entrypoints, f, fs.imports[f][i].text)
      {
        NothingUnread(fs, entrypoints, f, i);
      }
    }
  }
}
