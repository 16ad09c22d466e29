/** A segment-list approximation of Node's POSIX `path` functions used by the
    scanner: `basename`, `extname`, `dirname`, `join` and `resolve`.

    - `Join(dir, name)` is `dir + "/" + name`; this is what `path.join` gives
      for a normalised directory without a trailing slash and a plain entry
      name as returned by `readdirSync`.
    - `Resolve(dir, rel)` normalises the segments of `dir + "/" + rel`
      (dropping empty and `.` segments, letting `..` remove the previous one)
      and returns an absolute path; the directory is taken to be absolute,
      so no working directory is prefixed.
    - Trailing slashes are not stripped before taking a base name. */
module Paths {
  import opened Text

  /** Index of the last occurrence of `c` in `s`, or -1 when there is none. */
  function LastIndexOf(s: string, c: char): (k: int)
    ensures -1 <= k < |s|
    ensures k >= 0 ==> s[k] == c
    ensures forall j :: k < j < |s| ==> s[j] != c
  {
    if s == [] then -1
    else if s[|s| - 1] == c then |s| - 1
    else LastIndexOf(s[..|s| - 1], c)
  }

  /** `path.basename(p)`: everything after the last slash. */
  function Basename(p: string): string
  {
    p[LastIndexOf(p, '/') + 1..]
  }

  /** `path.extname(p)`: from the last dot of the base name to its end, or
      empty when the base name has no dot, starts with its only dot, or is
      `..`. */
  function Extname(p: string): (ext: string)
    ensures ext == "" || ext[0] == '.'
  {
    var b := Basename(p);
    var k := LastIndexOf(b, '.');
    if k <= 0 || b == ".." then "" else b[k..]
  }

  /** `path.dirname(p)`. */
  function Dirname(p: string): string
  {
    var k := LastIndexOf(p, '/');
    if k < 0 then "." else if k == 0 then "/" else p[..k]
  }

  /** `path.join(dir, name)` for a normalised directory and a plain name. */
  function Join(dir: string, name: string): string
  {
    dir + "/" + name
  }

  /** Segment normalisation: empty and `.` segments vanish, `..` removes the
      segment before it (and stays at the root when there is none). */
  function NormalizeSegments(segs: seq<string>): (r: seq<string>)
    ensures forall k :: 0 <= k < |r| ==> r[k] != "" && r[k] != "." && r[k] != ".."
  {
    if segs == [] then []
    else
      var acc := NormalizeSegments(segs[..|segs| - 1]);
      var s := segs[|segs| - 1];
      if s == "" || s == "." then acc
      else if s == ".." then (if acc == [] then [] else acc[..|acc| - 1])
      else acc + [s]
  }

  /** `path.resolve(dir, rel)` for an absolute `dir` and a relative `rel`. */
  function Resolve(dir: string, rel: string): (r: string)
    ensures StartsWith(r, "/")
  {
    "/" + Text.Join(NormalizeSegments(Split(dir + "/" + rel, '/')), '/')
  }

  lemma {:induction false} LastIndexOfLower(s: string, c: char)
    requires c == '.' || c == '/'
    ensures LastIndexOf(ToLower(s), c) == LastIndexOf(s, c)
  {
    if s != [] {
      var t := ToLower(s);
      assert t[..|t| - 1] == ToLower(s[..|s| - 1]);
      LastIndexOfLower(s[..|s| - 1], c);
    }
  }

  lemma BasenameLower(p: string)
    ensures Basename(ToLower(p)) == ToLower(Basename(p))
  {
    LastIndexOfLower(p, '/');
  }

  lemma ToLowerSuffix(s: string, i: nat)
    requires i <= |s|
    ensures ToLower(s)[i..] == ToLower(s[i..])
  {
  }

  lemma ToLowerDotDot(b: string)
    ensures (ToLower(b) == "..") == (b == "..")
  {
    if ToLower(b) == ".." {
      assert LowerChar(b[0]) == '.' && LowerChar(b[1]) == '.';
    }
  }

  /** Lower-casing a path lower-cases its extension and nothing else moves:
      `extname(p.toLowerCase()) == extname(p).toLowerCase()`. */
  lemma ExtnameIgnoresCase(p: string)
    ensures Extname(ToLower(p)) == ToLower(Extname(p))
  {
    var b := Basename(p);
    BasenameLower(p);
    LastIndexOfLower(b, '.');
    ToLowerDotDot(b);
    var d := LastIndexOf(b, '.');
    if d > 0 {
      ToLowerSuffix(b, d);
    }
  }

  /** The base name of `join(dir, name)` is `name` when the name is plain. */
  lemma BasenameOfJoin(dir: string, name: string)
    requires '/' !in name
    ensures Basename(Join(dir, name)) == name
  {
    var p := Join(dir, name);
    var k := LastIndexOf(p, '/');
    assert p[|dir|] == '/';
    assert k == |dir|;
    assert p[k + 1..] == name;
  }

  /** The extension of `join(dir, name)` is that of the entry name. */
  lemma ExtnameOfJoin(dir: string, name: string)
    requires '/' !in name
    ensures Extname(Join(dir, name)) == Extname(name)
  {
    BasenameOfJoin(dir, name);
    assert LastIndexOf(name, '/') == -1;
    assert Basename(name) == name;
  }
}
