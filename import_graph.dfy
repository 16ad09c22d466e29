/** The import graph of the bundled application: the relative module
    specifiers a file imports, their resolution against the scanned files,
    and the deduplicated list of edges between scanned files.

    The regular-expression engine is not modelled: `captures(p, source)` is
    an input giving, in order, the first capture group of every match of
    the pattern `p` in the source. */
module ImportGraph {
  import opened Wrappers
  import opened Text
  import Paths

  /** The import patterns, by what they recognise. */
  datatype Pattern =
    | StaticImport   // `import … from '…'`
    | Require        // `require('…')`
    | DynamicImport  // `import('…')`
    | PythonFrom     // `from … import` at the start of a line
    | PythonImport   // `import …` at the start of a line

  type Captures = (Pattern, string) -> seq<string>

  const ScriptPatterns: seq<Pattern> := [StaticImport, Require, DynamicImport]
  const PythonPatterns: seq<Pattern> := [PythonFrom, PythonImport]

  /** Python files are recognised by their lower-cased extension alone. */
  function PatternsFor(filePath: string): seq<Pattern>
  {
    if ToLower(Paths.Extname(filePath)) == ".py" then PythonPatterns else ScriptPatterns
  }

  /** The captures that are relative specifiers, in order. */
  function Relative(caps: seq<string>): seq<string>
  {
    if caps == [] then []
    else Relative(caps[..|caps| - 1]) + (if StartsWith(caps[|caps| - 1], ".") then [caps[|caps| - 1]] else [])
  }

  /** The relative captures of each pattern in turn. */
  function ImportsFrom(pats: seq<Pattern>, source: string, captures: Captures): seq<string>
  {
    if pats == [] then []
    else ImportsFrom(pats[..|pats| - 1], source, captures) + Relative(captures(pats[|pats| - 1], source))
  }

  /** What `extractImports` returns. */
  function Imports(filePath: string, source: string, captures: Captures): seq<string>
  {
    ImportsFrom(PatternsFor(filePath), source, captures)
  }

  /** `extractImports`: for each pattern of the file's language, every
      capture that starts with a dot. */
  method ExtractImports(filePath: string, source: string, captures: Captures) returns (imports: seq<string>)
    ensures imports == Imports(filePath, source, captures)
  {
    var ext := ToLower(Paths.Extname(filePath));
    var isPy := ext == ".py";
    var pats := if isPy then PythonPatterns else ScriptPatterns;
    imports := [];
    var i := 0;
    while i < |pats|
      invariant 0 <= i <= |pats|
      invariant imports == ImportsFrom(pats[..i], source, captures)
    {
      var caps := captures(pats[i], source);
      var j := 0;
      while j < |caps|
        invariant 0 <= j <= |caps|
        invariant imports == ImportsFrom(pats[..i], source, captures) + Relative(caps[..j])
      {
        var raw := caps[j];
        assert caps[..j + 1][..j] == caps[..j];
        if StartsWith(raw, ".") {
          imports := imports + [raw];
        }
        j := j + 1;
      }
      assert caps[..|caps|] == caps;
      assert pats[..i + 1][..i] == pats[..i];
      i := i + 1;
    }
    assert pats[..|pats|] == pats;
  }

  lemma {:induction false} RelativeExactly(caps: seq<string>)
    ensures forall x :: x in Relative(caps) <==> x in caps && StartsWith(x, ".")
  {
    if caps != [] {
      RelativeExactly(caps[..|caps| - 1]);
      assert caps == caps[..|caps| - 1] + [caps[|caps| - 1]];
    }
  }

  lemma {:induction false} ImportsFromExactly(pats: seq<Pattern>, source: string, captures: Captures)
    ensures forall x :: x in ImportsFrom(pats, source, captures)
                <==> StartsWith(x, ".") && exists k :: 0 <= k < |pats| && x in captures(pats[k], source)
  {
    if pats != [] {
      var init := pats[..|pats| - 1];
      ImportsFromExactly(init, source, captures);
      RelativeExactly(captures(pats[|pats| - 1], source));
      forall x | StartsWith(x, ".") && (exists k :: 0 <= k < |pats| && x in captures(pats[k], source))
        ensures x in ImportsFrom(pats, source, captures)
      {
        var k :| 0 <= k < |pats| && x in captures(pats[k], source);
        if k < |pats| - 1 {
          assert init[k] == pats[k];
        }
      }
      forall x | x in ImportsFrom(init, source, captures)
        ensures exists k :: 0 <= k < |pats| && x in captures(pats[k], source)
      {
        var k :| 0 <= k < |init| && x in captures(init[k], source);
        assert init[k] == pats[k];
      }
    }
  }

  /** A specifier is extracted exactly when it starts with a dot and some
      pattern of the file's language captures it. */
  lemma ImportsExactly(filePath: string, source: string, captures: Captures, x: string)
    ensures x in Imports(filePath, source, captures)
            <==> StartsWith(x, ".")
                 && exists k :: 0 <= k < |PatternsFor(filePath)| && x in captures(PatternsFor(filePath)[k], source)
  {
    ImportsFromExactly(PatternsFor(filePath), source, captures);
  }

  /** The paths tried for a specifier, in order. */
  function Candidates(base: string): seq<string>
  {
    [base, base + ".ts", base + ".tsx", base + ".js", base + ".jsx",
     Paths.Join(base, "index.ts"), Paths.Join(base, "index.js")]
  }

  /** The first of `cs` that is a scanned file. */
  function FirstIn(cs: seq<string>, allFiles: set<string>): (r: Option<string>)
    ensures r.None? <==> forall k :: 0 <= k < |cs| ==> cs[k] !in allFiles
    ensures r.Some? ==> exists k :: 0 <= k < |cs| && cs[k] == r.value && r.value in allFiles
                                     && forall j :: 0 <= j < k ==> cs[j] !in allFiles
  {
    if cs == [] then None
    else if cs[0] in allFiles then Some(cs[0])
    else
      var r := FirstIn(cs[1..], allFiles);
      assert forall k :: 0 < k < |cs| ==> cs[k] == cs[1..][k - 1];
      if r.Some? then
        var k :| 0 <= k < |cs[1..]| && cs[1..][k] == r.value && r.value in allFiles
                 && forall j :: 0 <= j < k ==> cs[1..][j] !in allFiles;
        assert cs[k + 1] == r.value;
        r
      else r
  }

  /** The base a specifier resolves to, from the importing file's directory. */
  function Base(fromFile: string, importPath: string): string
  {
    Paths.Resolve(Paths.Dirname(fromFile), importPath)
  }

  /** What `resolveImport` returns. */
  function Resolution(fromFile: string, importPath: string, allFiles: set<string>): Option<string>
  {
    FirstIn(Candidates(Base(fromFile, importPath)), allFiles)
  }

  /** `resolveImport`: the first candidate that is a scanned file, if any. */
  method ResolveImport(fromFile: string, importPath: string, allFiles: set<string>) returns (r: Option<string>)
    ensures r == Resolution(fromFile, importPath, allFiles)
  {
    var dir := Paths.Dirname(fromFile);
    var base := Paths.Resolve(dir, importPath);
    var candidates := Candidates(base);
    var i := 0;
    while i < |candidates|
      invariant 0 <= i <= |candidates|
      invariant FirstIn(candidates, allFiles) == FirstIn(candidates[i..], allFiles)
    {
      if candidates[i] in allFiles {
        return Some(candidates[i]);
      }
      assert candidates[i..][1..] == candidates[i + 1..];
      i := i + 1;
    }
    return None;
  }

  /** A resolved import is one of the scanned files, and it is the plain
      resolved path when that is a scanned file. */
  lemma ResolutionFacts(fromFile: string, importPath: string, allFiles: set<string>)
    ensures var r := Resolution(fromFile, importPath, allFiles);
            (r.Some? ==> r.value in allFiles)
            && (Base(fromFile, importPath) in allFiles ==> r == Some(Base(fromFile, importPath)))
  {
  }

  datatype Edge = Edge(from: string, to: string)

  /** The key under which an edge is deduplicated. */
  function Key(e: Edge): string
  {
    e.from + "\U{2192}" + e.to
  }

  /** The resolved imports of one file, in order. */
  function FileEdges(file: string, imports: seq<string>, allFiles: set<string>): seq<Edge>
  {
    if imports == [] then []
    else
      var r := Resolution(file, imports[|imports| - 1], allFiles);
      FileEdges(file, imports[..|imports| - 1], allFiles) + (if r.Some? then [Edge(file, r.value)] else [])
  }

  /** A file is skipped when it has no source or an empty one. */
  predicate HasSource(file: string, fileSources: map<string, string>)
  {
    file in fileSources && fileSources[file] != ""
  }

  /** Every resolved import of every file with a source, in order, before
      deduplication. */
  function AllEdges(files: seq<string>, fileSources: map<string, string>, captures: Captures,
                    allFiles: set<string>): seq<Edge>
  {
    if files == [] then []
    else
      var file := files[|files| - 1];
      AllEdges(files[..|files| - 1], fileSources, captures, allFiles)
      + (if HasSource(file, fileSources)
         then FileEdges(file, Imports(file, fileSources[file], captures), allFiles)
         else [])
  }

  /** The keys of a list of edges. */
  function Keys(es: seq<Edge>): set<string>
  {
    set e | e in es :: Key(e)
  }

  /** Keep each edge whose key has not been seen before. */
  function Dedup(es: seq<Edge>): seq<Edge>
  {
    if es == [] then []
    else
      var kept := Dedup(es[..|es| - 1]);
      var e := es[|es| - 1];
      if Key(e) in Keys(kept) then kept else kept + [e]
  }

  lemma DedupSnoc(es: seq<Edge>, e: Edge)
    ensures Dedup(es + [e]) == if Key(e) in Keys(Dedup(es)) then Dedup(es) else Dedup(es) + [e]
  {
    assert (es + [e])[..|es|] == es;
  }

  lemma KeysSnoc(es: seq<Edge>, e: Edge)
    ensures Keys(es + [e]) == Keys(es) + {Key(e)}
  {
    assert forall x :: x in es + [e] <==> x in es || x == e;
  }

  lemma FileEdgesStep(file: string, imports: seq<string>, j: int, allFiles: set<string>)
    requires 0 <= j < |imports|
    ensures var r := Resolution(file, imports[j], allFiles);
            FileEdges(file, imports[..j + 1], allFiles)
              == FileEdges(file, imports[..j], allFiles) + (if r.Some? then [Edge(file, r.value)] else [])
  {
    assert imports[..j + 1][..j] == imports[..j];
  }

  lemma AllEdgesStep(files: seq<string>, i: int, fileSources: map<string, string>, captures: Captures,
                     allFiles: set<string>)
    requires 0 <= i < |files|
    ensures var file := files[i];
            AllEdges(files[..i + 1], fileSources, captures, allFiles)
              == AllEdges(files[..i], fileSources, captures, allFiles)
                 + (if HasSource(file, fileSources)
                    then FileEdges(file, Imports(file, fileSources[file], captures), allFiles)
                    else [])
  {
    assert files[..i + 1][..i] == files[..i];
  }

  /** `buildEdges`: one edge per resolved import of every file with a
      source, skipping an edge whose key was already produced. */
  method BuildEdges(files: seq<string>, fileSources: map<string, string>, captures: Captures)
    returns (edges: seq<Edge>)
    ensures edges == Dedup(AllEdges(files, fileSources, captures, set f | f in files))
  {
    var fileSet := set f | f in files;
    edges := [];
    var seen: set<string> := {};
    ghost var done: seq<Edge> := [];
    var i := 0;
    while i < |files|
      invariant 0 <= i <= |files|
      invariant done == AllEdges(files[..i], fileSources, captures, fileSet)
      invariant edges == Dedup(done) && seen == Keys(edges)
    {
      var file := files[i];
      AllEdgesStep(files, i, fileSources, captures, fileSet);
      if file !in fileSources || fileSources[file] == "" {
        i := i + 1;
        continue;
      }
      var source := fileSources[file];
      var imports := ExtractImports(file, source, captures);
      edges, seen, done := AddFileEdges(file, imports, fileSet, edges, seen, done);
      i := i + 1;
    }
    assert files[..|files|] == files;
  }

  /** The inner loop of `buildEdges`: the resolved imports of one file. */
  method AddFileEdges(file: string, imports: seq<string>, fileSet: set<string>,
                      edges0: seq<Edge>, seen0: set<string>, ghost done0: seq<Edge>)
    returns (edges: seq<Edge>, seen: set<string>, ghost done: seq<Edge>)
    requires edges0 == Dedup(done0) && seen0 == Keys(edges0)
    ensures done == done0 + FileEdges(file, imports, fileSet)
    ensures edges == Dedup(done) && seen == Keys(edges)
  {
    edges, seen, done := edges0, seen0, done0;
    var j := 0;
    assert imports[..0] == [];
    while j < |imports|
      invariant 0 <= j <= |imports|
      invariant done == done0 + FileEdges(file, imports[..j], fileSet)
      invariant edges == Dedup(done) && seen == Keys(edges)
    {
      var imp := imports[j];
      var resolved := ResolveImport(file, imp, fileSet);
      FileEdgesStep(file, imports, j, fileSet);
      if resolved.Some? {
        var e := Edge(file, resolved.value);
        AppendAssoc(done0, FileEdges(file, imports[..j], fileSet), [e]);
        edges, seen, done := AddEdge(e, edges, seen, done);
      } else {
        assert FileEdges(file, imports[..j], fileSet) + [] == FileEdges(file, imports[..j], fileSet);
      }
      j := j + 1;
    }
    assert imports[..|imports|] == imports;
  }

  /** One resolved import: its edge is pushed unless its key was seen. */
  method AddEdge(e: Edge, edges0: seq<Edge>, seen0: set<string>, ghost done0: seq<Edge>)
    returns (edges: seq<Edge>, seen: set<string>, ghost done: seq<Edge>)
    requires edges0 == Dedup(done0) && seen0 == Keys(edges0)
    ensures done == done0 + [e]
    ensures edges == Dedup(done) && seen == Keys(edges)
  {
    var key := e.from + "\U{2192}" + e.to;
    assert key == Key(e);
    DedupSnoc(done0, e);
    done := done0 + [e];
    edges, seen := edges0, seen0;
    if key !in seen {
      KeysSnoc(edges, e);
      seen := seen + {key};
      edges := edges + [e];
    }
  }

  /** Deduplication keeps one edge per key, the first, and loses no key. */
  lemma {:induction false} DedupFacts(es: seq<Edge>)
    ensures Keys(Dedup(es)) == Keys(es)
    ensures forall j, k :: 0 <= j < k < |Dedup(es)| ==> Key(Dedup(es)[j]) != Key(Dedup(es)[k])
    ensures forall e :: e in Dedup(es) ==> e in es
  {
    if es != [] {
      var init := es[..|es| - 1];
      var e := es[|es| - 1];
      DedupFacts(init);
      assert es == init + [e];
      KeysSnoc(init, e);
      var kept := Dedup(init);
      if Key(e) !in Keys(kept) {
        KeysSnoc(kept, e);
        var d := kept + [e];
        forall j, k | 0 <= j < k < |d|
          ensures Key(d[j]) != Key(d[k])
        {
          if k == |kept| {
            assert d[j] in kept;
          } else {
            assert d[j] == kept[j] && d[k] == kept[k];
          }
        }
      }
    }
  }

  /** Every edge goes from a file with a source to a scanned file. */
  lemma {:induction false} FileEdgesFacts(file: string, imports: seq<string>, allFiles: set<string>)
    ensures forall e :: e in FileEdges(file, imports, allFiles) ==> e.from == file && e.to in allFiles
  {
    if imports != [] {
      FileEdgesFacts(file, imports[..|imports| - 1], allFiles);
    }
  }

  lemma {:induction false} AllEdgesFacts(files: seq<string>, fileSources: map<string, string>, captures: Captures,
                                         allFiles: set<string>)
    ensures forall e :: e in AllEdges(files, fileSources, captures, allFiles) ==>
              e.from in files && HasSource(e.from, fileSources) && e.to in allFiles
  {
    if files != [] {
      var init := files[..|files| - 1];
      var file := files[|files| - 1];
      AllEdgesFacts(init, fileSources, captures, allFiles);
      if HasSource(file, fileSources) {
        FileEdgesFacts(file, Imports(file, fileSources[file], captures), allFiles);
      }
      assert forall f :: f in init ==> f in files;
    }
  }

  /** The edges `buildEdges` returns connect scanned files that have a
      source, never share a key, and cover every key of the resolved
      imports. */
  lemma BuildEdgesFacts(files: seq<string>, fileSources: map<string, string>, captures: Captures)
    ensures var all := AllEdges(files, fileSources, captures, set f | f in files);
            var edges := Dedup(all);
            && (forall e :: e in edges ==> e.from in files && HasSource(e.from, fileSources) && e.to in files)
            && (forall j, k :: 0 <= j < k < |edges| ==> Key(edges[j]) != Key(edges[k]))
            && Keys(edges) == Keys(all)
  {
    var all := AllEdges(files, fileSources, captures, set f | f in files);
    AllEdgesFacts(files, fileSources, captures, set f | f in files);
    DedupFacts(all);
  }

  /** Without the arrow in the source paths, the key determines the edge. */
  lemma KeyInjective(a: Edge, b: Edge)
    requires '\U{2192}' !in a.from && '\U{2192}' !in b.from
    requires Key(a) == Key(b)
    ensures a == b
  {
    var ka, kb := Key(a), Key(b);
    assert ka[|a.from|] == '\U{2192}' && kb[|b.from|] == '\U{2192}';
    assert forall i :: 0 <= i < |a.from| ==> ka[i] == a.from[i];
    assert forall i :: 0 <= i < |b.from| ==> kb[i] == b.from[i];
    assert |a.from| == |b.from|;
    assert a.from == Key(a)[..|a.from|];
    assert b.from == Key(b)[..|b.from|];
    assert a.to == Key(a)[|a.from| + 1..];
    assert b.to == Key(b)[|b.from| + 1..];
  }

  /** Then deduplication by key is deduplication of the edges themselves:
      every resolved import appears among the edges. */
  lemma DedupLosesNoEdge(es: seq<Edge>)
    requires forall e :: e in es ==> '\U{2192}' !in e.from
    ensures forall e :: e in es <==> e in Dedup(es)
  {
    DedupFacts(es);
    forall e | e in es
      ensures e in Dedup(es)
    {
      assert Key(e) in Keys(Dedup(es));
      var d :| d in Dedup(es) && Key(d) == Key(e);
      KeyInjective(d, e);
    }
  }

  /** With the arrow in a path, two different edges share a key, and
      `buildEdges` keeps only the first of them. Both edges are ones
      resolution can produce: every endpoint is an absolute path of a file
      the walk may collect (`/p/a.ts`, `/p/b.ts`, and `a.ts` and `b.ts` in a
      directory `/p/a.ts→/p`), the first reached from `/p/a.ts` by
      `./a.ts→/p/b`, the second from `/p/a.ts→/p/a.ts` by `../../b`. */
  lemma KeyCollision()
    ensures var a, b := Edge("/p/a.ts", "/p/a.ts\U{2192}/p/b.ts"), Edge("/p/a.ts\U{2192}/p/a.ts", "/p/b.ts");
            a != b && Key(a) == Key(b) && Dedup([a, b]) == [a]
  {
    var a, b := Edge("/p/a.ts", "/p/a.ts\U{2192}/p/b.ts"), Edge("/p/a.ts\U{2192}/p/a.ts", "/p/b.ts");
    assert a.from != b.from by {
      assert |a.from| != |b.from|;
    }
    assert Key(a) == Key(b);
    assert [a, b][..1] == [a];
    assert [a][..0] == [];
    assert Dedup([a]) == [a];
    assert Key(b) in Keys([a]);
  }
}
