/** The file collection of the bundled application: a recursive directory
    walk that skips configured entry names, keeps files whose extension is
    supported and whose name matches no ignore pattern, and remembers the
    real path of every directory it has entered so that a symbolic-link
    cycle is walked once.

    The file system is an input: `realPath`, `readDir` and `isDirectory`
    stand for `realpathSync`, `readdirSync` and `statSync(..).isDirectory()`,
    `None` for a call that throws. `realDirs` is the finite set of real
    paths `realPath` can return; that finiteness is what makes the walk
    terminate. */
module FileWalk {
  import opened Wrappers
  import opened Text
  import Paths
  import MainParser

  datatype FileSystem = FileSystem(
    realPath: string -> Option<string>,
    readDir: string -> Option<seq<string>>,
    isDirectory: string -> Option<bool>,
    realDirs: set<string>)

  /** Every real path lies in `realDirs`, and entry names are plain names. */
  ghost predicate WellFormed(fs: FileSystem)
  {
    && (forall p :: fs.realPath(p).Some? ==> fs.realPath(p).value in fs.realDirs)
    && (forall p, k :: fs.readDir(p).Some? && 0 <= k < |fs.readDir(p).value| ==> '/' !in fs.readDir(p).value[k])
  }

  /** The extensions the walk collects (`.cjs` is not among them). */
  const SupportedExtensions: set<string> := {".ts", ".tsx", ".js", ".jsx", ".mjs", ".py"}

  /** Name fragments that mark generated, declaration, map and test files. */
  const IgnoreFilePatterns: seq<string> := [".min.js", ".min.ts", ".d.ts", ".map", ".spec.", ".test.", "__tests__"]

  /** `shouldIgnoreFile`: the name contains one of the patterns. */
  predicate ShouldIgnoreFile(filename: string)
  {
    exists k :: 0 <= k < |IgnoreFilePatterns| && Contains(filename, IgnoreFilePatterns[k])
  }

  /** A file entry the walk keeps. */
  predicate Accepted(entry: string)
  {
    ToLower(Paths.Extname(entry)) in SupportedExtensions && !ShouldIgnoreFile(entry)
  }

  /** What a walk produces: the files in the order they are pushed, the
      visited set afterwards, and the real directories entered, in order. */
  datatype Walked = Walked(files: seq<string>, visited: set<string>, entered: seq<string>)

  /** `visited` grows by exactly the directories entered, none of which had
      been visited, each entered once. */
  ghost predicate Grows(visited: set<string>, r: Walked)
  {
    && r.visited == visited + (set d | d in r.entered)
    && (forall k :: 0 <= k < |r.entered| ==> r.entered[k] !in visited)
    && (forall j, k :: 0 <= j < k < |r.entered| ==> r.entered[j] != r.entered[k])
  }

  lemma SubsetCard(a: set<string>, b: set<string>)
    requires a <= b
    ensures |a| <= |b|
  {
    assert b == a + (b - a);
  }

  lemma EnterCard(all: set<string>, visited: set<string>, d: string)
    requires d in all && d !in visited
    ensures |all - (visited + {d})| < |all - visited|
  {
    assert all - visited == (all - (visited + {d})) + {d};
  }

  /** `getFiles(dir, ignore, [], visited)`. */
  function Walk(fs: FileSystem, dir: string, ignore: seq<string>, visited: set<string>): (r: Walked)
    requires WellFormed(fs) && visited <= fs.realDirs
    ensures visited <= r.visited <= fs.realDirs
    decreases |fs.realDirs - visited|, 0, 0
  {
    match fs.realPath(dir)
    case None => Walked([], visited, [])
    case Some(realDir) =>
      if realDir in visited then Walked([], visited, [])
      else
        EnterCard(fs.realDirs, visited, realDir);
        match fs.readDir(dir)
        case None => Walked([], visited + {realDir}, [realDir])
        case Some(entries) =>
          var r := WalkEntries(fs, dir, entries, 0, ignore, visited + {realDir});
          Walked(r.files, r.visited, [realDir] + r.entered)
  }

  /** The loop over the entries of `dir`, from the `i`-th on. */
  function WalkEntries(fs: FileSystem, dir: string, entries: seq<string>, i: int, ignore: seq<string>,
                       visited: set<string>): (r: Walked)
    requires WellFormed(fs) && visited <= fs.realDirs && 0 <= i <= |entries|
    ensures visited <= r.visited <= fs.realDirs
    decreases |fs.realDirs - visited|, 1, |entries| - i
  {
    if i == |entries| then Walked([], visited, [])
    else
      var entry := entries[i];
      if entry in ignore then WalkEntries(fs, dir, entries, i + 1, ignore, visited)
      else
        var fullPath := Paths.Join(dir, entry);
        match fs.isDirectory(fullPath)
        case None => WalkEntries(fs, dir, entries, i + 1, ignore, visited)
        case Some(isDir) =>
          if isDir then
            var sub := Walk(fs, fullPath, ignore, visited);
            SubsetCard(fs.realDirs - sub.visited, fs.realDirs - visited);
            var rest := WalkEntries(fs, dir, entries, i + 1, ignore, sub.visited);
            Walked(sub.files + rest.files, rest.visited, sub.entered + rest.entered)
          else
            var rest := WalkEntries(fs, dir, entries, i + 1, ignore, visited);
            if Accepted(entry) then Walked([fullPath] + rest.files, rest.visited, rest.entered) else rest
  }

  /** The visited set grows by exactly the real directories entered, none
      of them visited before and none entered twice: each real directory is
      read at most once, whatever cycles the links form. */
  lemma {:induction false} WalkGrows(fs: FileSystem, dir: string, ignore: seq<string>, visited: set<string>)
    requires WellFormed(fs) && visited <= fs.realDirs
    ensures Grows(visited, Walk(fs, dir, ignore, visited))
    decreases |fs.realDirs - visited|, 0, 0, 0
  {
    var realDir := fs.realPath(dir);
    if realDir.Some? && realDir.value !in visited {
      var d := realDir.value;
      EnterCard(fs.realDirs, visited, d);
      EnterStep(fs, dir, ignore, visited);
      var r := Walked([], visited + {d}, []);
      if fs.readDir(dir).Some? {
        WalkEntriesGrows(fs, dir, fs.readDir(dir).value, 0, ignore, visited + {d});
        r := WalkEntries(fs, dir, fs.readDir(dir).value, 0, ignore, visited + {d});
      }
      ConsGrows(visited, d, r);
      assert Walk(fs, dir, ignore, visited) == Walked(r.files, r.visited, [d] + r.entered);
    }
  }

  /** A directory whose real path has not been visited is entered, and its
      entries are walked when it can be read. */
  lemma EnterStep(fs: FileSystem, dir: string, ignore: seq<string>, visited: set<string>)
    requires WellFormed(fs) && visited <= fs.realDirs
    requires fs.realPath(dir).Some? && fs.realPath(dir).value !in visited
    ensures var d := fs.realPath(dir).value;
            fs.readDir(dir).None? ==> Walk(fs, dir, ignore, visited) == Walked([], visited + {d}, [d])
    ensures var d := fs.realPath(dir).value;
            fs.readDir(dir).Some? ==>
              var r := WalkEntries(fs, dir, fs.readDir(dir).value, 0, ignore, visited + {d});
              Walk(fs, dir, ignore, visited) == Walked(r.files, r.visited, [d] + r.entered)
  {
  }

  lemma ConsGrows(visited: set<string>, d: string, r: Walked)
    requires d !in visited && Grows(visited + {d}, r)
    ensures Grows(visited, Walked(r.files, r.visited, [d] + r.entered))
  {
    var e := [d] + r.entered;
    assert (set x | x in e) == {d} + (set x | x in r.entered);
    forall j, k | 0 <= j < k < |e|
      ensures e[j] != e[k]
    {
      if j == 0 {
        assert e[k] == r.entered[k - 1];
      } else {
        assert e[j] == r.entered[j - 1] && e[k] == r.entered[k - 1];
      }
    }
  }

  lemma AppendGrows(visited: set<string>, a: Walked, b: Walked, files: seq<string>)
    requires Grows(visited, a) && Grows(a.visited, b)
    ensures Grows(visited, Walked(files, b.visited, a.entered + b.entered))
  {
    var e := a.entered + b.entered;
    ElementsAppend(a.entered, b.entered);
    forall k | 0 <= k < |e|
      ensures e[k] !in visited
    {
      if k >= |a.entered| {
        assert e[k] == b.entered[k - |a.entered|];
      }
    }
    DistinctAppend(a.entered, b.entered, a.visited);
  }

  lemma ElementsAppend(a: seq<string>, b: seq<string>)
    ensures (set x | x in a + b) == (set x | x in a) + (set x | x in b)
  {
  }

  /** Two lists without repeats, the second avoiding a set that holds the
      first, concatenate to a list without repeats. */
  lemma DistinctAppend(a: seq<string>, b: seq<string>, s: set<string>)
    requires forall j, k :: 0 <= j < k < |a| ==> a[j] != a[k]
    requires forall j, k :: 0 <= j < k < |b| ==> b[j] != b[k]
    requires forall k :: 0 <= k < |a| ==> a[k] in s
    requires forall k :: 0 <= k < |b| ==> b[k] !in s
    ensures forall j, k :: 0 <= j < k < |a + b| ==> (a + b)[j] != (a + b)[k]
  {
    var e := a + b;
    forall j, k | 0 <= j < k < |e|
      ensures e[j] != e[k]
    {
      if k < |a| {
      } else if j >= |a| {
        assert e[j] == b[j - |a|] && e[k] == b[k - |a|];
      } else {
        assert e[j] == a[j] && e[k] == b[k - |a|];
      }
    }
  }

  lemma {:induction false} WalkEntriesGrows(fs: FileSystem, dir: string, entries: seq<string>, i: int,
                                            ignore: seq<string>, visited: set<string>)
    requires WellFormed(fs) && visited <= fs.realDirs && 0 <= i <= |entries|
    ensures Grows(visited, WalkEntries(fs, dir, entries, i, ignore, visited))
    decreases |fs.realDirs - visited|, 1, |entries| - i, 1
  {
    if i < |entries| {
      if entries[i] !in ignore && fs.isDirectory(Paths.Join(dir, entries[i])) == Some(true) {
        DirectoryGrows(fs, dir, entries, i, ignore, visited);
      } else {
        NonDirectoryStep(fs, dir, entries, i, ignore, visited);
        WalkEntriesGrows(fs, dir, entries, i + 1, ignore, visited);
      }
    }
  }

  /** An entry that is not walked into leaves the visited set and the
      directories entered to the rest of the loop. */
  lemma NonDirectoryStep(fs: FileSystem, dir: string, entries: seq<string>, i: int, ignore: seq<string>, visited: set<string>)
    requires WellFormed(fs) && visited <= fs.realDirs && 0 <= i < |entries|
    requires entries[i] in ignore || fs.isDirectory(Paths.Join(dir, entries[i])) != Some(true)
    ensures WalkEntries(fs, dir, entries, i, ignore, visited).visited == WalkEntries(fs, dir, entries, i + 1, ignore, visited).visited
    ensures WalkEntries(fs, dir, entries, i, ignore, visited).entered == WalkEntries(fs, dir, entries, i + 1, ignore, visited).entered
  {
  }

  /** The pass over a directory entry: the subdirectory's walk, then the
      rest of the entries. */
  lemma {:induction false} DirectoryGrows(fs: FileSystem, dir: string, entries: seq<string>, i: int,
                                          ignore: seq<string>, visited: set<string>)
    requires WellFormed(fs) && visited <= fs.realDirs && 0 <= i < |entries|
    requires entries[i] !in ignore && fs.isDirectory(Paths.Join(dir, entries[i])) == Some(true)
    ensures Grows(visited, WalkEntries(fs, dir, entries, i, ignore, visited))
    decreases |fs.realDirs - visited|, 1, |entries| - i, 0
  {
    var fullPath := Paths.Join(dir, entries[i]);
    var sub := Walk(fs, fullPath, ignore, visited);
    DirectoryStep(fs, dir, entries, i, ignore, visited);
    WalkGrows(fs, fullPath, ignore, visited);
    SubsetCard(fs.realDirs - sub.visited, fs.realDirs - visited);
    WalkEntriesGrows(fs, dir, entries, i + 1, ignore, sub.visited);
    var rest := WalkEntries(fs, dir, entries, i + 1, ignore, sub.visited);
    AppendGrows(visited, sub, rest, sub.files + rest.files);
  }

  /** A file the walk may report for the walk rooted at `root`: it lies
      under `root`, and its own name is accepted and not configured as
      ignored. */
  ghost predicate Collected(f: string, root: string, ignore: seq<string>)
  {
    StartsWith(f, root + "/") && Accepted(Paths.Basename(f)) && Paths.Basename(f) !in ignore
  }

  ghost predicate AllCollected(files: seq<string>, root: string, ignore: seq<string>)
  {
    forall k :: 0 <= k < |files| ==> Collected(files[k], root, ignore)
  }

  lemma UnderSubdirectory(f: string, dir: string, entry: string)
    requires StartsWith(f, Paths.Join(dir, entry) + "/")
    ensures StartsWith(f, dir + "/")
  {
    assert f[..|dir + "/"|] == (Paths.Join(dir, entry) + "/")[..|dir + "/"|];
  }

  lemma EntryCollected(dir: string, entry: string, ignore: seq<string>)
    requires '/' !in entry && Accepted(entry) && entry !in ignore
    ensures Collected(Paths.Join(dir, entry), dir, ignore)
  {
    Paths.BasenameOfJoin(dir, entry);
    assert Paths.Join(dir, entry)[..|dir + "/"|] == dir + "/";
  }

  /** Every file the walk reports lies under the walked directory, has a
      supported extension, matches no ignore pattern and is not an ignored
      entry name. */
  lemma {:induction false} WalkSound(fs: FileSystem, dir: string, ignore: seq<string>, visited: set<string>)
    requires WellFormed(fs) && visited <= fs.realDirs
    ensures AllCollected(Walk(fs, dir, ignore, visited).files, dir, ignore)
    decreases |fs.realDirs - visited|, 0, 0
  {
    match fs.realPath(dir)
    case None =>
    case Some(realDir) =>
      if realDir !in visited {
        EnterCard(fs.realDirs, visited, realDir);
        match fs.readDir(dir)
        case None =>
        case Some(entries) =>
          WalkEntriesSound(fs, dir, entries, 0, ignore, visited + {realDir});
          assert Walk(fs, dir, ignore, visited).files == WalkEntries(fs, dir, entries, 0, ignore, visited + {realDir}).files;
      }
  }

  lemma {:induction false} WalkEntriesSound(fs: FileSystem, dir: string, entries: seq<string>, i: int,
                                            ignore: seq<string>, visited: set<string>)
    requires WellFormed(fs) && visited <= fs.realDirs && 0 <= i <= |entries|
    requires fs.readDir(dir) == Some(entries)
    ensures AllCollected(WalkEntries(fs, dir, entries, i, ignore, visited).files, dir, ignore)
    decreases |fs.realDirs - visited|, 1, |entries| - i
  {
    if i < |entries| {
      var entry := entries[i];
      var fullPath := Paths.Join(dir, entry);
      if entry in ignore || fs.isDirectory(fullPath).None? {
        WalkEntriesSound(fs, dir, entries, i + 1, ignore, visited);
        assert WalkEntries(fs, dir, entries, i, ignore, visited) == WalkEntries(fs, dir, entries, i + 1, ignore, visited);
      } else if fs.isDirectory(fullPath).value {
        var sub := Walk(fs, fullPath, ignore, visited);
        WalkSound(fs, fullPath, ignore, visited);
        SubsetCard(fs.realDirs - sub.visited, fs.realDirs - visited);
        WalkEntriesSound(fs, dir, entries, i + 1, ignore, sub.visited);
        var rest := WalkEntries(fs, dir, entries, i + 1, ignore, sub.visited);
        var files := sub.files + rest.files;
        assert WalkEntries(fs, dir, entries, i, ignore, visited).files == files;
        forall k | 0 <= k < |files|
          ensures Collected(files[k], dir, ignore)
        {
          if k < |sub.files| {
            assert files[k] == sub.files[k] && Collected(sub.files[k], fullPath, ignore);
            UnderSubdirectory(sub.files[k], dir, entry);
          } else {
            assert files[k] == rest.files[k - |sub.files|];
          }
        }
      } else {
        WalkEntriesSound(fs, dir, entries, i + 1, ignore, visited);
        var rest := WalkEntries(fs, dir, entries, i + 1, ignore, visited);
        if Accepted(entry) {
          assert '/' !in fs.readDir(dir).value[i];
          EntryCollected(dir, entry, ignore);
          var files := [fullPath] + rest.files;
          assert WalkEntries(fs, dir, entries, i, ignore, visited).files == files;
          forall k | 0 <= k < |files|
            ensures Collected(files[k], dir, ignore)
          {
            if k > 0 {
              assert files[k] == rest.files[k - 1];
            }
          }
        } else {
          assert WalkEntries(fs, dir, entries, i, ignore, visited).files == rest.files;
        }
      }
    }
  }

  lemma ExtnameOfBasename(p: string)
    ensures Paths.Extname(Paths.Basename(p)) == Paths.Extname(p)
  {
    var b := Paths.Basename(p);
    assert '/' !in b by {
      var k := Paths.LastIndexOf(p, '/');
      forall j | 0 <= j < |b| ensures b[j] != '/' {
        assert b[j] == p[k + 1 + j];
      }
    }
    assert Paths.LastIndexOf(b, '/') == -1;
    assert Paths.Basename(b) == b;
  }

  /** Every collected file has a language the analyzer recognises, so the
      scan never sees an `Unknown` file. */
  lemma CollectedHasLanguage(f: string, root: string, ignore: seq<string>)
    requires Collected(f, root, ignore)
    ensures MainParser.DetectLanguage(f) != MainParser.Unknown
  {
    ExtnameOfBasename(f);
  }

  /** One entry of the loop: skipped, pushed, or walked into. */
  lemma SkipStep(fs: FileSystem, dir: string, entries: seq<string>, i: int, ignore: seq<string>, visited: set<string>)
    requires WellFormed(fs) && visited <= fs.realDirs && 0 <= i < |entries|
    requires var stat := fs.isDirectory(Paths.Join(dir, entries[i]));
             entries[i] in ignore || stat.None? || (!stat.value && !Accepted(entries[i]))
    ensures WalkEntries(fs, dir, entries, i, ignore, visited) == WalkEntries(fs, dir, entries, i + 1, ignore, visited)
  {
  }

  lemma FileStep(fs: FileSystem, dir: string, entries: seq<string>, i: int, ignore: seq<string>, visited: set<string>)
    requires WellFormed(fs) && visited <= fs.realDirs && 0 <= i < |entries|
    requires entries[i] !in ignore && fs.isDirectory(Paths.Join(dir, entries[i])) == Some(false) && Accepted(entries[i])
    ensures var rest := WalkEntries(fs, dir, entries, i + 1, ignore, visited);
            WalkEntries(fs, dir, entries, i, ignore, visited) == Walked([Paths.Join(dir, entries[i])] + rest.files, rest.visited, rest.entered)
  {
  }

  lemma DirectoryStep(fs: FileSystem, dir: string, entries: seq<string>, i: int, ignore: seq<string>, visited: set<string>)
    requires WellFormed(fs) && visited <= fs.realDirs && 0 <= i < |entries|
    requires entries[i] !in ignore && fs.isDirectory(Paths.Join(dir, entries[i])) == Some(true)
    ensures var sub := Walk(fs, Paths.Join(dir, entries[i]), ignore, visited);
            var rest := WalkEntries(fs, dir, entries, i + 1, ignore, sub.visited);
            WalkEntries(fs, dir, entries, i, ignore, visited) == Walked(sub.files + rest.files, rest.visited, sub.entered + rest.entered)
  {
  }

  /** Every accepted file entry at or after `i` is reported by the loop,
      whatever directories were visited before. */
  lemma {:induction false} WalkEntriesComplete(fs: FileSystem, dir: string, entries: seq<string>, i: int,
                                               ignore: seq<string>, visited: set<string>, j: int)
    requires WellFormed(fs) && visited <= fs.realDirs && 0 <= i <= j < |entries|
    requires entries[j] !in ignore && fs.isDirectory(Paths.Join(dir, entries[j])) == Some(false) && Accepted(entries[j])
    ensures Paths.Join(dir, entries[j]) in WalkEntries(fs, dir, entries, i, ignore, visited).files
    decreases j - i
  {
    if i == j {
      FileReported(fs, dir, entries, i, ignore, visited);
    } else if entries[i] !in ignore && fs.isDirectory(Paths.Join(dir, entries[i])) == Some(true) {
      var after := Walk(fs, Paths.Join(dir, entries[i]), ignore, visited).visited;
      WalkEntriesComplete(fs, dir, entries, i + 1, ignore, after, j);
      DirectoryKeeps(fs, dir, entries, i, ignore, visited, Paths.Join(dir, entries[j]));
    } else {
      WalkEntriesComplete(fs, dir, entries, i + 1, ignore, visited, j);
      NonDirectoryKeeps(fs, dir, entries, i, ignore, visited, Paths.Join(dir, entries[j]));
    }
  }

  /** An accepted file entry is reported by its own pass of the loop. */
  lemma FileReported(fs: FileSystem, dir: string, entries: seq<string>, i: int, ignore: seq<string>, visited: set<string>)
    requires WellFormed(fs) && visited <= fs.realDirs && 0 <= i < |entries|
    requires entries[i] !in ignore && fs.isDirectory(Paths.Join(dir, entries[i])) == Some(false) && Accepted(entries[i])
    ensures Paths.Join(dir, entries[i]) in WalkEntries(fs, dir, entries, i, ignore, visited).files
  {
    FileStep(fs, dir, entries, i, ignore, visited);
    var rest := WalkEntries(fs, dir, entries, i + 1, ignore, visited);
    assert ([Paths.Join(dir, entries[i])] + rest.files)[0] == Paths.Join(dir, entries[i]);
  }

  /** Past an entry that is not walked into, the loop keeps every file the
      rest of it reports. */
  lemma NonDirectoryKeeps(fs: FileSystem, dir: string, entries: seq<string>, i: int, ignore: seq<string>, visited: set<string>,
                          f: string)
    requires WellFormed(fs) && visited <= fs.realDirs && 0 <= i < |entries|
    requires entries[i] in ignore || fs.isDirectory(Paths.Join(dir, entries[i])) != Some(true)
    requires f in WalkEntries(fs, dir, entries, i + 1, ignore, visited).files
    ensures f in WalkEntries(fs, dir, entries, i, ignore, visited).files
  {
  }

  /** Past a directory entry, the loop keeps every file the rest of it
      reports, from the visited set the subdirectory's walk leaves. */
  lemma DirectoryKeeps(fs: FileSystem, dir: string, entries: seq<string>, i: int, ignore: seq<string>, visited: set<string>,
                       f: string)
    requires WellFormed(fs) && visited <= fs.realDirs && 0 <= i < |entries|
    requires entries[i] !in ignore && fs.isDirectory(Paths.Join(dir, entries[i])) == Some(true)
    requires f in WalkEntries(fs, dir, entries, i + 1, ignore, Walk(fs, Paths.Join(dir, entries[i]), ignore, visited).visited).files
    ensures f in WalkEntries(fs, dir, entries, i, ignore, visited).files
  {
    DirectoryStep(fs, dir, entries, i, ignore, visited);
  }

  /** The visited set the loop has reached when it comes to entry `j`,
      having started at entry `i`. */
  ghost function VisitedBefore(fs: FileSystem, dir: string, entries: seq<string>, i: int, ignore: seq<string>,
                               visited: set<string>, j: int): (r: set<string>)
    requires WellFormed(fs) && visited <= fs.realDirs && 0 <= i <= j <= |entries|
    ensures visited <= r <= fs.realDirs
  {
    WalkEntries(fs, dir, entries[..j], i, ignore, visited).visited
  }

  /** The files of a directory entry's own walk, started from the visited
      set the entries before it leave, are among the files the loop
      reports. */
  lemma {:induction false} WalkEntriesIncludeSubdirectory(fs: FileSystem, dir: string, entries: seq<string>, i: int,
                                                          ignore: seq<string>, visited: set<string>, j: int)
    requires WellFormed(fs) && visited <= fs.realDirs && 0 <= i <= j < |entries|
    requires entries[j] !in ignore && fs.isDirectory(Paths.Join(dir, entries[j])) == Some(true)
    ensures forall f ::
              f in Walk(fs, Paths.Join(dir, entries[j]), ignore, VisitedBefore(fs, dir, entries, i, ignore, visited, j)).files ==>
              f in WalkEntries(fs, dir, entries, i, ignore, visited).files
    decreases j - i
  {
    var before := entries[..j];
    if i == j {
      assert WalkEntries(fs, dir, before, i, ignore, visited).visited == visited;
      DirectoryStep(fs, dir, entries, i, ignore, visited);
    } else {
      assert before[i] == entries[i];
      var stat := fs.isDirectory(Paths.Join(dir, entries[i]));
      if entries[i] in ignore || stat.None? || (!stat.value && !Accepted(entries[i])) {
        SkipStep(fs, dir, entries, i, ignore, visited);
        SkipStep(fs, dir, before, i, ignore, visited);
        WalkEntriesIncludeSubdirectory(fs, dir, entries, i + 1, ignore, visited, j);
      } else if !stat.value {
        FileStep(fs, dir, entries, i, ignore, visited);
        FileStep(fs, dir, before, i, ignore, visited);
        WalkEntriesIncludeSubdirectory(fs, dir, entries, i + 1, ignore, visited, j);
      } else {
        DirectoryStep(fs, dir, entries, i, ignore, visited);
        DirectoryStep(fs, dir, before, i, ignore, visited);
        var sub := Walk(fs, Paths.Join(dir, entries[i]), ignore, visited);
        WalkEntriesIncludeSubdirectory(fs, dir, entries, i + 1, ignore, sub.visited, j);
      }
    }
  }

  /** The converse of `WalkSound`: when the walk enters `dir` (its real
      path is not yet visited) and can read it, every accepted file entry
      that is not an ignored name is reported. */
  lemma WalkComplete(fs: FileSystem, dir: string, ignore: seq<string>, visited: set<string>, j: int)
    requires WellFormed(fs) && visited <= fs.realDirs
    requires fs.realPath(dir).Some? && fs.realPath(dir).value !in visited && fs.readDir(dir).Some?
    requires 0 <= j < |fs.readDir(dir).value|
    requires fs.readDir(dir).value[j] !in ignore && Accepted(fs.readDir(dir).value[j])
    requires fs.isDirectory(Paths.Join(dir, fs.readDir(dir).value[j])) == Some(false)
    ensures Paths.Join(dir, fs.readDir(dir).value[j]) in Walk(fs, dir, ignore, visited).files
  {
    EnterStep(fs, dir, ignore, visited);
    WalkEntriesComplete(fs, dir, fs.readDir(dir).value, 0, ignore, visited + {fs.realPath(dir).value}, j);
  }

  /** When the walk enters and reads `dir`, the files of each
      subdirectory entry's own walk are among the files it reports. */
  lemma WalkIncludesSubdirectory(fs: FileSystem, dir: string, ignore: seq<string>, visited: set<string>, j: int)
    requires WellFormed(fs) && visited <= fs.realDirs
    requires fs.realPath(dir).Some? && fs.realPath(dir).value !in visited && fs.readDir(dir).Some?
    requires 0 <= j < |fs.readDir(dir).value|
    requires fs.readDir(dir).value[j] !in ignore
    requires fs.isDirectory(Paths.Join(dir, fs.readDir(dir).value[j])) == Some(true)
    ensures forall f ::
              f in Walk(fs, Paths.Join(dir, fs.readDir(dir).value[j]), ignore,
                        VisitedBefore(fs, dir, fs.readDir(dir).value, 0, ignore, visited + {fs.realPath(dir).value}, j)).files ==>
              f in Walk(fs, dir, ignore, visited).files
  {
    EnterStep(fs, dir, ignore, visited);
    WalkEntriesIncludeSubdirectory(fs, dir, fs.readDir(dir).value, 0, ignore, visited + {fs.realPath(dir).value}, j);
  }

  /** The object state of a walk: the list the files are pushed onto and the
      set of real directories already entered, both shared by every
      recursive call. */
  class Walker {
    var fileList: seq<string>
    var visited: set<string>

    constructor()
      ensures fileList == [] && visited == {}
    {
      fileList := [];
      visited := {};
    }

    /** `getFiles(dir, ignore, fileList, visited)`: appends what the walk
        of `dir` collects and records the directories it enters. */
    method GetFiles(fs: FileSystem, dir: string, ignore: seq<string>)
      requires WellFormed(fs) && visited <= fs.realDirs
      modifies this
      ensures var w := Walk(fs, dir, ignore, old(visited));
              fileList == old(fileList) + w.files && visited == w.visited
      decreases |fs.realDirs - visited|, 0
    {
      var realDir := fs.realPath(dir);
      if realDir.None? {
        return;
      }
      if realDir.value in visited {
        return;
      }
      ghost var visited0 := visited;
      ghost var files0 := fileList;
      EnterCard(fs.realDirs, visited, realDir.value);
      visited := visited + {realDir.value};
      var entries := fs.readDir(dir);
      if entries.None? {
        return;
      }
      ghost var whole := WalkEntries(fs, dir, entries.value, 0, ignore, visited);
      var i := 0;
      while i < |entries.value|
        invariant 0 <= i <= |entries.value|
        invariant visited0 + {realDir.value} <= visited <= fs.realDirs
        invariant var rest := WalkEntries(fs, dir, entries.value, i, ignore, visited);
                  files0 + whole.files == fileList + rest.files && whole.visited == rest.visited
      {
        SubsetCard(fs.realDirs - visited, fs.realDirs - (visited0 + {realDir.value}));
        VisitEntry(fs, dir, entries.value, i, ignore);
        i := i + 1;
      }
    }

    /** One pass of the loop of `getFiles` over the entries of `dir`. */
    method VisitEntry(fs: FileSystem, dir: string, entries: seq<string>, i: int, ignore: seq<string>)
      requires WellFormed(fs) && visited <= fs.realDirs && 0 <= i < |entries|
      modifies this
      ensures old(visited) <= visited <= fs.realDirs
      ensures var here := WalkEntries(fs, dir, entries, i, ignore, old(visited));
              var rest := WalkEntries(fs, dir, entries, i + 1, ignore, visited);
              old(fileList) + here.files == fileList + rest.files && here.visited == rest.visited
      decreases |fs.realDirs - visited|, 2
    {
      var entry := entries[i];
      if entry in ignore {
        SkipStep(fs, dir, entries, i, ignore, visited);
        return;
      }
      var fullPath := Paths.Join(dir, entry);
      var stat := fs.isDirectory(fullPath);
      if stat.None? {
        SkipStep(fs, dir, entries, i, ignore, visited);
      } else if stat.value {
        VisitDirectory(fs, dir, entries, i, ignore);
      } else if Accepted(entry) {
        FileStep(fs, dir, entries, i, ignore, visited);
        ghost var rest := WalkEntries(fs, dir, entries, i + 1, ignore, visited);
        AppendAssoc(fileList, [fullPath], rest.files);
        fileList := fileList + [fullPath];
      } else {
        SkipStep(fs, dir, entries, i, ignore, visited);
      }
    }

    /** The pass for an entry that is a directory: walk into it. */
    method VisitDirectory(fs: FileSystem, dir: string, entries: seq<string>, i: int, ignore: seq<string>)
      requires WellFormed(fs) && visited <= fs.realDirs && 0 <= i < |entries|
      requires entries[i] !in ignore && fs.isDirectory(Paths.Join(dir, entries[i])) == Some(true)
      modifies this
      ensures old(visited) <= visited <= fs.realDirs
      ensures var here := WalkEntries(fs, dir, entries, i, ignore, old(visited));
              var rest := WalkEntries(fs, dir, entries, i + 1, ignore, visited);
              old(fileList) + here.files == fileList + rest.files && here.visited == rest.visited
      decreases |fs.realDirs - visited|, 1
    {
      var fullPath := Paths.Join(dir, entries[i]);
      ghost var before, listed := visited, fileList;
      ghost var sub := Walk(fs, fullPath, ignore, before);
      DirectoryStep(fs, dir, entries, i, ignore, before);
      GetFiles(fs, fullPath, ignore);
      ghost var rest := WalkEntries(fs, dir, entries, i + 1, ignore, visited);
      AppendAssoc(listed, sub.files, rest.files);
    }
  }
}
