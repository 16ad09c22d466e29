/** The commit-frequency cache of the bundled application. The output of
    `git log --since="30 days ago" --name-only` is read once per scan and
    every non-blank line of it, trimmed, counts one commit for the path
    `<project>/<line>`. The git output is an input: `None` stands for a
    failure to load the configuration or to run git, which leaves an empty
    table. */
module Churn {
  import opened Wrappers
  import opened Text

  /** The key under which a path listed by the log is counted. */
  function KeyOf(projectPath: string, listed: string): string
  {
    projectPath + "/" + listed
  }

  /** Counting the log's lines, one after the other: each line whose
      listed path (`Trim` for the log) is not empty adds one to the count of
      its key. */
  function Tally(projectPath: string, lines: seq<string>, listing: string -> string): map<string, int>
  {
    if lines == [] then map[]
    else
      var prev := Tally(projectPath, lines[..|lines| - 1], listing);
      var trimmed := listing(lines[|lines| - 1]);
      if trimmed == "" then prev
      else
        var key := KeyOf(projectPath, trimmed);
        prev[key := GetOrZero(prev, key) + 1]
  }

  /** One more line of the log: the count of its listed path, if any, goes
      up by one. */
  lemma TallyStep(projectPath: string, lines: seq<string>, i: int, listing: string -> string,
                  counts: map<string, int>, listed: string, next: map<string, int>)
    requires 0 <= i < |lines| && listed == listing(lines[i])
    requires counts == Tally(projectPath, lines[..i], listing)
    requires next == if listed == "" then counts
                     else counts[KeyOf(projectPath, listed) := GetOrZero(counts, KeyOf(projectPath, listed)) + 1]
    ensures next == Tally(projectPath, lines[..i + 1], listing)
  {
    assert lines[..i + 1][..i] == lines[..i];
  }

  /** The number of lines that read `listed` once trimmed. */
  function Occurrences(lines: seq<string>, listed: string, listing: string -> string): nat
  {
    if lines == [] then 0
    else Occurrences(lines[..|lines| - 1], listed, listing) + (if listing(lines[|lines| - 1]) == listed then 1 else 0)
  }

  /** The table the cache holds once built. */
  function ChurnTable(projectPath: string, log: Option<string>): map<string, int>
  {
    if log.None? then map[] else Tally(projectPath, Split(log.value, '\n'), Trim)
  }

  /** The churn of a file: its count in the table, 0 when absent. */
  function ChurnOf(projectPath: string, log: Option<string>, filePath: string): int
  {
    GetOrZero(ChurnTable(projectPath, log), filePath)
  }

  /** Different listed paths give different keys. */
  lemma KeyInjective(projectPath: string, a: string, b: string)
    requires KeyOf(projectPath, a) == KeyOf(projectPath, b)
    ensures a == b
  {
    assert a == KeyOf(projectPath, a)[|projectPath| + 1..];
    assert b == KeyOf(projectPath, b)[|projectPath| + 1..];
  }

  /** The count under a key is the number of lines listing that path. */
  lemma {:induction false} TallyCounts(projectPath: string, lines: seq<string>, listed: string, listing: string -> string)
    requires listed != ""
    ensures GetOrZero(Tally(projectPath, lines, listing), KeyOf(projectPath, listed)) == Occurrences(lines, listed, listing)
  {
    if lines != [] {
      var init := lines[..|lines| - 1];
      TallyCounts(projectPath, init, listed, listing);
      var trimmed := listing(lines[|lines| - 1]);
      if trimmed != "" && trimmed != listed {
        if KeyOf(projectPath, trimmed) == KeyOf(projectPath, listed) {
          KeyInjective(projectPath, trimmed, listed);
        }
      }
    }
  }

  /** Some non-blank line of the log, trimmed, names `key`. */
  ghost predicate Listed(projectPath: string, lines: seq<string>, listing: string -> string, key: string)
  {
    exists i :: 0 <= i < |lines| && listing(lines[i]) != "" && key == KeyOf(projectPath, listing(lines[i]))
  }

  /** Every count of the table is at least one. */
  lemma {:induction false} TallyPositive(projectPath: string, lines: seq<string>, listing: string -> string)
    ensures forall k :: k in Tally(projectPath, lines, listing) ==> Tally(projectPath, lines, listing)[k] >= 1
  {
    if lines != [] {
      TallyPositive(projectPath, lines[..|lines| - 1], listing);
    }
  }

  /** Every key of the table is a listed, non-blank path under the project. */
  lemma {:induction false} TallyKeys(projectPath: string, lines: seq<string>, listing: string -> string)
    ensures forall k :: k in Tally(projectPath, lines, listing) ==> Listed(projectPath, lines, listing, k)
  {
    if lines != [] {
      var init := lines[..|lines| - 1];
      TallyKeys(projectPath, init, listing);
      forall k | k in Tally(projectPath, lines, listing)
        ensures Listed(projectPath, lines, listing, k)
      {
        if k in Tally(projectPath, init, listing) {
          assert Listed(projectPath, init, listing, k);
          var i :| 0 <= i < |init| && listing(init[i]) != "" && k == KeyOf(projectPath, listing(init[i]));
          assert init[i] == lines[i];
        } else {
          var last := |lines| - 1;
          assert listing(lines[last]) != "" && k == KeyOf(projectPath, listing(lines[last]));
        }
      }
    }
  }

  /** A file is charged one commit per line of the log that lists it. */
  lemma ChurnCountsListings(projectPath: string, log: string, listed: string)
    requires listed != ""
    ensures ChurnOf(projectPath, Some(log), KeyOf(projectPath, listed)) == Occurrences(Split(log, '\n'), listed, Trim)
  {
    TallyCounts(projectPath, Split(log, '\n'), listed, Trim);
  }

  /** Every key of the table lies under `<project>/`. */
  lemma {:induction false} TallyUnderProject(projectPath: string, lines: seq<string>, listing: string -> string)
    ensures forall k :: k in Tally(projectPath, lines, listing) ==> StartsWith(k, projectPath + "/")
  {
    TallyKeys(projectPath, lines, listing);
    forall k | k in Tally(projectPath, lines, listing)
      ensures StartsWith(k, projectPath + "/")
    {
      assert Listed(projectPath, lines, listing, k);
      var i :| 0 <= i < |lines| && listing(lines[i]) != "" && k == KeyOf(projectPath, listing(lines[i]));
      assert k[..|projectPath + "/"|] == projectPath + "/";
    }
  }

  /** A file outside `<project>/` never has churn, and no file has negative
      churn. */
  lemma ChurnOutsideProject(projectPath: string, log: Option<string>, filePath: string)
    ensures ChurnOf(projectPath, log, filePath) >= 0
    ensures !StartsWith(filePath, projectPath + "/") ==> ChurnOf(projectPath, log, filePath) == 0
  {
    if log.Some? {
      TallyUnderProject(projectPath, Split(log.value, '\n'), Trim);
      TallyPositive(projectPath, Split(log.value, '\n'), Trim);
    }
  }

  /** The module-level cache: `None` until first needed, rebuilt only after
      it is cleared. */
  class ChurnCache {
    var cache: Option<map<string, int>>

    /** Every count the cache holds is positive. */
    ghost predicate Valid()
      reads this
    {
      cache.Some? ==> forall k :: k in cache.value ==> cache.value[k] >= 1
    }

    constructor()
      ensures cache == None && Valid()
    {
      cache := None;
    }

    /** `clearChurnCache`. */
    method Clear()
      modifies this
      ensures cache == None && Valid()
    {
      cache := None;
    }

    /** `buildChurnCache`: the table of the given log, or the empty table
        when there is none. */
    method Build(projectPath: string, log: Option<string>)
      modifies this
      ensures cache == Some(ChurnTable(projectPath, log)) && Valid()
    {
      if log.None? {
        cache := Some(map[]);
        return;
      }
      var lines := Split(log.value, '\n');
      CountLines(projectPath, lines);
      TallyPositive(projectPath, lines, Trim);
    }

    /** The loop of `buildChurnCache`: a fresh table, then one step per
        line of the log. */
    method CountLines(projectPath: string, lines: seq<string>)
      modifies this
      ensures cache == Some(Tally(projectPath, lines, Trim))
    {
      cache := Some(map[]);
      var i := 0;
      assert lines[..0] == [];
      while i < |lines|
        invariant 0 <= i <= |lines|
        invariant cache == Some(Tally(projectPath, lines[..i], Trim))
      {
        var trimmed := Trim(lines[i]);
        var counts := cache.value;
        var next := counts;
        if trimmed != "" {
          var abs := projectPath + "/" + trimmed;
          next := counts[abs := GetOrZero(counts, abs) + 1];
        }
        TallyStep(projectPath, lines, i, Trim, counts, trimmed, next);
        cache := Some(next);
        i := i + 1;
      }
      assert lines[..|lines|] == lines;
    }

    /** `getChurnScore`: builds the table on first use, then looks the file
        up; a file the log never lists has churn 0. */
    method GetChurnScore(filePath: string, projectPath: string, log: Option<string>) returns (score: int)
      requires Valid()
      modifies this
      ensures Valid()
      ensures old(cache).Some? ==> cache == old(cache)
      ensures old(cache).None? ==> cache == Some(ChurnTable(projectPath, log))
      ensures score == GetOrZero(cache.value, filePath) && score >= 0
    {
      if cache.None? {
        Build(projectPath, log);
      }
      score := GetOrZero(cache.value, filePath);
    }
  }
}
