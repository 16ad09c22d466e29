/** `getFiles` of the two command-line scanners (`src/cli/scanner.ts` and
    `src/main/cli/scanner.ts` carry the same function): a recursive walk
    with no record of visited directories and no error handling.

    The file system is a finite tree, so the walk terminates here; on a
    file system whose links form a cycle the source does not, and this
    model says nothing about that case. A `readdirSync` or `statSync` that
    throws makes the whole walk throw, modelled as `None`. */
module LegacyWalk {
  import opened Wrappers
  import opened Text
  import Paths

  /** An entry as the walk sees it: a file, a directory with its entries,
      a directory that cannot be read, or an entry whose `statSync` throws
      (a dangling link, say). */
  datatype Tree =
    | File(name: string)
    | Directory(name: string, entries: seq<Tree>)
    | Unreadable(name: string)
    | Dangling(name: string)

  /** Entry names are plain names, all the way down. */
  predicate Plain(t: Tree)
  {
    '/' !in t.name && (t.Directory? ==> forall k :: 0 <= k < |t.entries| ==> Plain(t.entries[k]))
  }

  /** The entry filter: a configured name, a minified script, a generated
      chunk, or any name with a dash; directories are filtered alike. */
  predicate Skipped(name: string, ignore: seq<string>)
  {
    name in ignore || EndsWith(name, ".min.js") || StartsWith(name, "chunk-") || Contains(name, "-")
  }

  /** The test on the full path that decides whether it is listed. */
  predicate Listable(path: string)
  {
    EndsWith(path, ".js") || EndsWith(path, ".ts")
  }

  /** `getFiles(dir, ignore, [])` on the tree at `dir`: the paths appended,
      or `None` when the walk throws. */
  function List(dir: string, node: Tree, ignore: seq<string>): Option<seq<string>>
    decreases node, 1
  {
    if node.Directory? then ListEntries(dir, node, 0, ignore) else None
  }

  /** The loop over the entries of `node`, from the `i`-th on. A directory
      entry contributes its own contents first and then, when its path
      passes `Listable`, its own path. */
  function ListEntries(dir: string, node: Tree, i: int, ignore: seq<string>): Option<seq<string>>
    requires node.Directory? && 0 <= i <= |node.entries|
    decreases node, 0, |node.entries| - i
  {
    if i == |node.entries| then Some([])
    else
      var entry := node.entries[i];
      var fullPath := Paths.Join(dir, entry.name);
      if Skipped(entry.name, ignore) then ListEntries(dir, node, i + 1, ignore)
      else if entry.Dangling? then None
      else
        var sub := if entry.File? then Some([]) else List(fullPath, entry, ignore);
        var rest := ListEntries(dir, node, i + 1, ignore);
        if sub.None? || rest.None? then None
        else Some(sub.value + (if Listable(fullPath) then [fullPath] else []) + rest.value)
  }

  /** A path the walk rooted at `root` may list: below `root`, passing the
      path test, with an own name that passes the entry filter. */
  ghost predicate Reported(f: string, root: string, ignore: seq<string>)
  {
    StartsWith(f, root + "/") && Listable(f) && !Skipped(Paths.Basename(f), ignore)
  }

  ghost predicate AllReported(files: seq<string>, root: string, ignore: seq<string>)
  {
    forall k :: 0 <= k < |files| ==> Reported(files[k], root, ignore)
  }

  lemma Below(f: string, dir: string, name: string)
    requires StartsWith(f, Paths.Join(dir, name) + "/")
    ensures StartsWith(f, dir + "/")
  {
    assert f[..|dir + "/"|] == (Paths.Join(dir, name) + "/")[..|dir + "/"|];
  }

  lemma JoinReported(dir: string, name: string, ignore: seq<string>)
    requires '/' !in name && !Skipped(name, ignore) && Listable(Paths.Join(dir, name))
    ensures Reported(Paths.Join(dir, name), dir, ignore)
  {
    Paths.BasenameOfJoin(dir, name);
    assert Paths.Join(dir, name)[..|dir + "/"|] == dir + "/";
  }

  /** Everything the walk lists lies below the walked directory, ends in
      `.js` or `.ts`, and has an own name the filter lets through. */
  lemma {:induction false} ListSound(dir: string, node: Tree, ignore: seq<string>)
    requires Plain(node)
    ensures List(dir, node, ignore).Some? ==> AllReported(List(dir, node, ignore).value, dir, ignore)
    decreases node, 1
  {
    if node.Directory? {
      ListEntriesSound(dir, node, 0, ignore);
    }
  }

  lemma {:induction false} ListEntriesSound(dir: string, node: Tree, i: int, ignore: seq<string>)
    requires node.Directory? && Plain(node) && 0 <= i <= |node.entries|
    ensures ListEntries(dir, node, i, ignore).Some? ==> AllReported(ListEntries(dir, node, i, ignore).value, dir, ignore)
    decreases node, 0, |node.entries| - i
  {
    if i < |node.entries| {
      var entry := node.entries[i];
      var fullPath := Paths.Join(dir, entry.name);
      ListEntriesSound(dir, node, i + 1, ignore);
      if !Skipped(entry.name, ignore) && !entry.Dangling? {
        var sub := if entry.File? then Some([]) else List(fullPath, entry, ignore);
        var rest := ListEntries(dir, node, i + 1, ignore);
        if sub.Some? && rest.Some? {
          assert Plain(entry);
          if !entry.File? {
            ListSound(fullPath, entry, ignore);
            AllReportedBelow(sub.value, dir, entry.name, ignore);
          }
          var here: seq<string> := if Listable(fullPath) then [fullPath] else [];
          if Listable(fullPath) {
            JoinReported(dir, entry.name, ignore);
          }
          assert AllReported(here, dir, ignore);
          AllReportedConcat(sub.value, here, dir, ignore);
          AllReportedConcat(sub.value + here, rest.value, dir, ignore);
          assert ListEntries(dir, node, i, ignore) == Some(sub.value + here + rest.value);
        }
      }
    }
  }

  lemma AllReportedConcat(a: seq<string>, b: seq<string>, root: string, ignore: seq<string>)
    requires AllReported(a, root, ignore) && AllReported(b, root, ignore)
    ensures AllReported(a + b, root, ignore)
  {
    forall k | 0 <= k < |a + b|
      ensures Reported((a + b)[k], root, ignore)
    {
      if k < |a| {
        assert (a + b)[k] == a[k];
      } else {
        assert (a + b)[k] == b[k - |a|];
      }
    }
  }

  lemma AllReportedBelow(fs: seq<string>, dir: string, name: string, ignore: seq<string>)
    requires AllReported(fs, Paths.Join(dir, name), ignore)
    ensures AllReported(fs, dir, ignore)
  {
    forall k | 0 <= k < |fs|
      ensures Reported(fs[k], dir, ignore)
    {
      assert Reported(fs[k], Paths.Join(dir, name), ignore);
      Below(fs[k], dir, name);
    }
  }

  /** A walk that reaches an entry whose `statSync` throws throws as well,
      whatever else the directory holds. */
  lemma {:induction false} DanglingThrows(dir: string, node: Tree, i: int, j: int, ignore: seq<string>)
    requires node.Directory? && 0 <= i <= j < |node.entries|
    requires node.entries[j].Dangling? && !Skipped(node.entries[j].name, ignore)
    ensures ListEntries(dir, node, i, ignore).None?
    decreases j - i
  {
    if i < j {
      DanglingThrows(dir, node, i + 1, j, ignore);
    }
  }

  /** What a non-skipped entry adds to the listing when its walk succeeds:
      a directory's own contents, then its path when that ends in `.js` or
      `.ts`. */
  function Contribution(dir: string, entry: Tree, ignore: seq<string>): seq<string>
    requires entry.Directory? ==> List(Paths.Join(dir, entry.name), entry, ignore).Some?
  {
    var fullPath := Paths.Join(dir, entry.name);
    (if entry.Directory? then List(fullPath, entry, ignore).value else [])
      + (if Listable(fullPath) then [fullPath] else [])
  }

  /** The directory of the entries of `node` before the `j`-th. */
  function Before(node: Tree, j: int): (r: Tree)
    requires node.Directory? && 0 <= j <= |node.entries|
    ensures r.Directory? && |r.entries| == j
  {
    Directory(node.name, node.entries[..j])
  }

  /** A successful listing splits at every non-skipped entry `j`: what the
      entries before it list, then what `j` contributes (a directory's
      contents ahead of its own path), then what the entries after it
      list. */
  lemma {:induction false} ListSplits(dir: string, node: Tree, i: int, j: int, ignore: seq<string>)
    requires node.Directory? && 0 <= i <= j < |node.entries|
    requires !Skipped(node.entries[j].name, ignore)
    requires ListEntries(dir, node, i, ignore).Some?
    ensures ListEntries(dir, Before(node, j), i, ignore).Some?
    ensures node.entries[j].Directory? ==> List(Paths.Join(dir, node.entries[j].name), node.entries[j], ignore).Some?
    ensures ListEntries(dir, node, j + 1, ignore).Some?
    ensures ListEntries(dir, node, i, ignore).value
              == ListEntries(dir, Before(node, j), i, ignore).value
                 + Contribution(dir, node.entries[j], ignore)
                 + ListEntries(dir, node, j + 1, ignore).value
    decreases j - i
  {
    if i == j {
      SplitHere(dir, node, j, ignore);
    } else if Skipped(node.entries[i].name, ignore) {
      SkipStep(dir, node, i, ignore);
      ListSplits(dir, node, i + 1, j, ignore);
      SplitPastSkipped(dir, node, i, j, ignore);
    } else {
      EntryStep(dir, node, i, ignore);
      ListSplits(dir, node, i + 1, j, ignore);
      SplitAfterEntry(dir, node, i, j, ignore);
    }
  }

  /** `ListSplits` at the entry itself: nothing is listed before it. */
  lemma SplitHere(dir: string, node: Tree, j: int, ignore: seq<string>)
    requires node.Directory? && 0 <= j < |node.entries|
    requires !Skipped(node.entries[j].name, ignore)
    requires ListEntries(dir, node, j, ignore).Some?
    ensures ListEntries(dir, Before(node, j), j, ignore) == Some([])
    ensures node.entries[j].Directory? ==> List(Paths.Join(dir, node.entries[j].name), node.entries[j], ignore).Some?
    ensures ListEntries(dir, node, j + 1, ignore).Some?
    ensures ListEntries(dir, node, j, ignore).value
              == [] + Contribution(dir, node.entries[j], ignore) + ListEntries(dir, node, j + 1, ignore).value
  {
    EntryStep(dir, node, j, ignore);
  }

  /** The step of `ListSplits` past a skipped entry `i` ahead of `j`. */
  lemma SplitPastSkipped(dir: string, node: Tree, i: int, j: int, ignore: seq<string>)
    requires node.Directory? && 0 <= i < j < |node.entries|
    requires Skipped(node.entries[i].name, ignore)
    requires ListEntries(dir, node, i, ignore) == ListEntries(dir, node, i + 1, ignore)
    requires ListEntries(dir, Before(node, j), i + 1, ignore).Some?
    ensures ListEntries(dir, Before(node, j), i, ignore) == ListEntries(dir, Before(node, j), i + 1, ignore)
  {
    assert Before(node, j).entries[i] == node.entries[i];
    SkipStep(dir, Before(node, j), i, ignore);
  }

  /** The step of `ListSplits` past a non-skipped entry `i` ahead of `j`. */
  lemma SplitAfterEntry(dir: string, node: Tree, i: int, j: int, ignore: seq<string>)
    requires node.Directory? && 0 <= i < j < |node.entries|
    requires !Skipped(node.entries[i].name, ignore) && !Skipped(node.entries[j].name, ignore)
    requires ListEntries(dir, node, i, ignore).Some? && ListEntries(dir, node, i + 1, ignore).Some?
    requires node.entries[i].Directory? ==> List(Paths.Join(dir, node.entries[i].name), node.entries[i], ignore).Some?
    requires ListEntries(dir, node, i, ignore).value
               == Contribution(dir, node.entries[i], ignore) + ListEntries(dir, node, i + 1, ignore).value
    requires ListEntries(dir, Before(node, j), i + 1, ignore).Some?
    requires node.entries[j].Directory? ==> List(Paths.Join(dir, node.entries[j].name), node.entries[j], ignore).Some?
    requires ListEntries(dir, node, j + 1, ignore).Some?
    requires ListEntries(dir, node, i + 1, ignore).value
               == ListEntries(dir, Before(node, j), i + 1, ignore).value
                  + Contribution(dir, node.entries[j], ignore)
                  + ListEntries(dir, node, j + 1, ignore).value
    ensures ListEntries(dir, Before(node, j), i, ignore).Some?
    ensures ListEntries(dir, node, i, ignore).value
              == ListEntries(dir, Before(node, j), i, ignore).value
                 + Contribution(dir, node.entries[j], ignore)
                 + ListEntries(dir, node, j + 1, ignore).value
  {
    var b := Before(node, j);
    assert b.entries[i] == node.entries[i];
    EntryStep(dir, b, i, ignore);
    var head := Contribution(dir, node.entries[i], ignore);
    var mid := ListEntries(dir, b, i + 1, ignore).value;
    var c := Contribution(dir, node.entries[j], ignore);
    var tail := ListEntries(dir, node, j + 1, ignore).value;
    AppendAssoc(head, mid + c, tail);
    AppendAssoc(head, mid, c);
  }

  /** One non-skipped entry: the walk throws when the entry or the rest of
      the loop does, and otherwise lists the entry's contribution ahead of
      the rest. */
  lemma EntryStep(dir: string, node: Tree, i: int, ignore: seq<string>)
    requires node.Directory? && 0 <= i < |node.entries| && !Skipped(node.entries[i].name, ignore)
    ensures ListEntries(dir, node, i, ignore).Some? <==>
              && (node.entries[i].File? || node.entries[i].Directory?)
              && (node.entries[i].Directory? ==> List(Paths.Join(dir, node.entries[i].name), node.entries[i], ignore).Some?)
              && ListEntries(dir, node, i + 1, ignore).Some?
    ensures ListEntries(dir, node, i, ignore).Some? ==>
              ListEntries(dir, node, i, ignore).value
                == Contribution(dir, node.entries[i], ignore) + ListEntries(dir, node, i + 1, ignore).value
  {
  }

  /** A non-skipped entry whose path ends in `.js` or `.ts` is listed
      whenever the walk succeeds, a directory as well as a file. */
  lemma PathListed(dir: string, node: Tree, i: int, j: int, ignore: seq<string>)
    requires node.Directory? && 0 <= i <= j < |node.entries|
    requires !Skipped(node.entries[j].name, ignore) && Listable(Paths.Join(dir, node.entries[j].name))
    requires ListEntries(dir, node, i, ignore).Some?
    ensures Paths.Join(dir, node.entries[j].name) in ListEntries(dir, node, i, ignore).value
  {
    ListSplits(dir, node, i, j, ignore);
    var c := Contribution(dir, node.entries[j], ignore);
    assert c[|c| - 1] == Paths.Join(dir, node.entries[j].name);
  }

  /** Everything a non-skipped subdirectory lists is listed by the walk of
      its parent, ahead of the subdirectory's own path. */
  lemma SubdirectoryListed(dir: string, node: Tree, i: int, j: int, ignore: seq<string>, f: string)
    requires node.Directory? && 0 <= i <= j < |node.entries|
    requires node.entries[j].Directory? && !Skipped(node.entries[j].name, ignore)
    requires ListEntries(dir, node, i, ignore).Some?
    ensures List(Paths.Join(dir, node.entries[j].name), node.entries[j], ignore).Some?
    ensures f in List(Paths.Join(dir, node.entries[j].name), node.entries[j], ignore).value ==>
              f in ListEntries(dir, node, i, ignore).value
  {
    ListSplits(dir, node, i, j, ignore);
  }

  lemma {:induction false} NoDash(s: string)
    requires '-' !in s
    ensures !Contains(s, "-")
  {
    if |s| > 0 {
      assert s[0] in s;
      NoDash(s[1..]);
    }
  }

  lemma EndsWithJoin(dir: string, name: string, suffix: string)
    requires EndsWith(name, suffix)
    ensures EndsWith(Paths.Join(dir, name), suffix)
  {
    var p := Paths.Join(dir, name);
    assert p[|p| - |suffix|..] == name[|name| - |suffix|..];
  }

  /** A short, dash-free name passes the entry filter. */
  lemma ShortNameKept(name: string)
    requires '-' !in name && |name| < 6
    ensures !Skipped(name, [])
  {
    NoDash(name);
  }

  lemma OnlyFile(dir: string, name: string, file: string)
    requires !Skipped(file, []) && Listable(Paths.Join(dir, file))
    ensures List(dir, Directory(name, [File(file)]), []) == Some([Paths.Join(dir, file)])
  {
    var node := Directory(name, [File(file)]);
    assert node.entries[0] == File(file);
    assert ListEntries(dir, node, 1, []) == Some([]);
    assert ListEntries(dir, node, 0, []) == Some([] + [Paths.Join(dir, file)] + []);
    assert [] + [Paths.Join(dir, file)] + [] == [Paths.Join(dir, file)];
  }

  lemma OnlySubdirectory(dir: string, name: string, sub: Tree)
    requires sub.Directory? && !Skipped(sub.name, []) && List(Paths.Join(dir, sub.name), sub, []).Some?
    ensures var fullPath := Paths.Join(dir, sub.name);
            List(dir, Directory(name, [sub]), []) ==
              Some(List(fullPath, sub, []).value + (if Listable(fullPath) then [fullPath] else []))
  {
    var node := Directory(name, [sub]);
    var fullPath := Paths.Join(dir, sub.name);
    assert node.entries[0] == sub;
    assert ListEntries(dir, node, 1, []) == Some([]);
    var here: seq<string> := if Listable(fullPath) then [fullPath] else [];
    assert ListEntries(dir, node, 0, []) == Some(List(fullPath, sub, []).value + here + []);
    assert List(fullPath, sub, []).value + here + [] == List(fullPath, sub, []).value + here;
  }

  /** A directory whose name ends in `.js` or `.ts` is listed itself, after
      its own contents: for a directory holding one directory `lib.js`
      that holds one file `a.ts`, the walk lists `lib.js/a.ts` and then
      `lib.js`. */
  lemma DirectoryListedAfterContents(dir: string, root: string, sub: string, file: string)
    requires '-' !in sub && |sub| < 6 && EndsWith(sub, ".js")
    requires '-' !in file && |file| < 6 && EndsWith(file, ".ts")
    ensures var subPath := Paths.Join(dir, sub);
            List(dir, Directory(root, [Directory(sub, [File(file)])]), [])
              == Some([Paths.Join(subPath, file), subPath])
  {
    var subPath := Paths.Join(dir, sub);
    ShortNameKept(sub);
    ShortNameKept(file);
    EndsWithJoin(subPath, file, ".ts");
    OnlyFile(subPath, sub, file);
    EndsWithJoin(dir, sub, ".js");
    OnlySubdirectory(dir, root, Directory(sub, [File(file)]));
    assert [Paths.Join(subPath, file)] + [subPath] == [Paths.Join(subPath, file), subPath];
  }

  lemma SkipStep(dir: string, node: Tree, i: int, ignore: seq<string>)
    requires node.Directory? && 0 <= i < |node.entries| && Skipped(node.entries[i].name, ignore)
    ensures ListEntries(dir, node, i, ignore) == ListEntries(dir, node, i + 1, ignore)
  {
  }

  /** `getFiles(dir)` with the default empty list: the files listed, or
      `None` when the walk throws. */
  method ListFiles(dir: string, node: Tree, ignore: seq<string>) returns (files: Option<seq<string>>)
    ensures files == List(dir, node, ignore)
  {
    var lister := new Lister();
    var ok := lister.GetFiles(dir, node, ignore);
    if !ok {
      return None;
    }
    assert lister.fileList == List(dir, node, ignore).value;
    files := Some(lister.fileList);
  }

  /** The object state of a walk: the list shared by every recursive call. */
  class Lister {
    var fileList: seq<string>

    constructor()
      ensures fileList == []
    {
      fileList := [];
    }

    /** `getFiles(dir, ignore, fileList)`: `ok` is false when the call
        throws; otherwise the list has grown by what the walk lists. */
    method GetFiles(dir: string, node: Tree, ignore: seq<string>) returns (ok: bool)
      modifies this
      ensures ok <==> List(dir, node, ignore).Some?
      ensures ok ==> fileList == old(fileList) + List(dir, node, ignore).value
      decreases node, 1
    {
      if !node.Directory? {
        return false;
      }
      ghost var start := fileList;
      var i := 0;
      while i < |node.entries|
        invariant 0 <= i <= |node.entries|
        invariant ListEntries(dir, node, 0, ignore).Some? <==> ListEntries(dir, node, i, ignore).Some?
        invariant ListEntries(dir, node, i, ignore).Some? ==>
                    start + ListEntries(dir, node, 0, ignore).value == fileList + ListEntries(dir, node, i, ignore).value
      {
        var stepped := VisitEntry(dir, node, i, ignore);
        if !stepped {
          return false;
        }
        i := i + 1;
      }
      ok := true;
    }

    /** One pass of the loop of `getFiles`; `ok` is false when it throws. */
    method VisitEntry(dir: string, node: Tree, i: int, ignore: seq<string>) returns (ok: bool)
      requires node.Directory? && 0 <= i < |node.entries|
      modifies this
      ensures !ok ==> ListEntries(dir, node, i, ignore).None?
      ensures ok ==> (ListEntries(dir, node, i, ignore).Some? <==> ListEntries(dir, node, i + 1, ignore).Some?)
      ensures ok && ListEntries(dir, node, i, ignore).Some? ==>
                old(fileList) + ListEntries(dir, node, i, ignore).value == fileList + ListEntries(dir, node, i + 1, ignore).value
      decreases node, 0
    {
      var entry := node.entries[i];
      var fullPath := Paths.Join(dir, entry.name);
      if entry.name in ignore {
        return true;
      }
      if EndsWith(entry.name, ".min.js") || StartsWith(entry.name, "chunk-") || Contains(entry.name, "-") {
        return true;
      }
      if entry.Dangling? {
        return false;
      }
      ghost var before := fileList;
      if !entry.File? {
        var walked := GetFiles(fullPath, entry, ignore);
        if !walked {
          return false;
        }
      }
      ghost var sub := fileList[|before|..];
      assert fileList == before + sub;
      if EndsWith(fullPath, ".js") || EndsWith(fullPath, ".ts") {
        fileList := fileList + [fullPath];
      }
      ghost var rest := ListEntries(dir, node, i + 1, ignore);
      if rest.Some? {
        ghost var here: seq<string> := if Listable(fullPath) then [fullPath] else [];
        assert ListEntries(dir, node, i, ignore).value == sub + here + rest.value;
        AppendAssoc(before, sub + here, rest.value);
        AppendAssoc(before, sub, here);
      }
      ok := true;
    }
  }
}
