/** The line-by-line heuristics of the regex analyzer, written out as
    predicates instead of regular expressions:

    - a function header is `^\s*def\s+(\w+)\s*\(` or
      `^\s*async\s+def\s+(\w+)\s*\(`;
    - the name is taken with the unanchored `(?:def\s+|async\s+def\s+)(\w+)`;
    - a line's complexity is the number of the keywords `if`, `elif`, `for`,
      `while`, `except`, `and`, `or` that occur in it as whole words;
    - the parameter list is the text between the first `(` and the next `)`;
    - the depth of a line is its leading whitespace, a tab counting four
      columns, divided by four;
    - a function runs from its header to the line before the next header. */
module PyHeuristics {
  import opened Wrappers
  import opened Text

  // ---------------------------------------------------------------------
  // Function headers
  // ---------------------------------------------------------------------

  /** The longest prefix of `s` made of word characters (`\w+` greedy). */
  function LeadingWord(s: string): (r: string)
    ensures |r| <= |s| && r == s[..|r|]
    ensures forall i :: 0 <= i < |r| ==> IsWordChar(r[i])
    ensures |r| == |s| || !IsWordChar(s[|r|])
  {
    if s != [] && IsWordChar(s[0]) then [s[0]] + LeadingWord(s[1..]) else ""
  }

  /** `def\s+(\w+)` at the very start of `s`: the captured name and what
      follows it. */
  function DefTail(s: string): Option<(string, string)>
  {
    if !StartsWith(s, "def") then None
    else
      var sp := LeadingSpaces(s[3..]);
      var w := LeadingWord(s[3 + |sp|..]);
      if |sp| == 0 || |w| == 0 then None
      else Some((w, s[3 + |sp| + |w|..]))
  }

  /** `async\s+def\s+(\w+)` at the very start of `s`. */
  function AsyncTail(s: string): Option<(string, string)>
  {
    if !StartsWith(s, "async") then None
    else
      var sp := LeadingSpaces(s[5..]);
      if |sp| == 0 then None else DefTail(s[5 + |sp|..])
  }

  /** `\s*\(` at the start of `s`. */
  predicate OpensParen(s: string)
  {
    StartsWith(s[|LeadingSpaces(s)|..], "(")
  }

  /** The name captured by the first header pattern that matches the line. */
  function HeaderName(line: string): Option<string>
  {
    var rest := line[|LeadingSpaces(line)|..];
    var d := DefTail(rest);
    var a := AsyncTail(rest);
    if d.Some? && OpensParen(d.value.1) then Some(d.value.0)
    else if a.Some? && OpensParen(a.value.1) then Some(a.value.0)
    else None
  }

  /** `patterns.some(p => p.test(line))`. */
  predicate IsDefLine(line: string)
  {
    HeaderName(line).Some?
  }

  /** `(?:def\s+|async\s+def\s+)(\w+)` matched at position `i`, trying the
      alternatives in order. */
  function NameAt(line: string, i: nat): Option<string>
    requires i <= |line|
  {
    var d := DefTail(line[i..]);
    var a := AsyncTail(line[i..]);
    if d.Some? then Some(d.value.0) else if a.Some? then Some(a.value.0) else None
  }

  /** The leftmost match of the unanchored name pattern from position `i`. */
  function NameMatchFrom(line: string, i: nat): Option<string>
    requires i <= |line|
    decreases |line| - i
  {
    if NameAt(line, i).Some? then NameAt(line, i)
    else if i == |line| then None
    else NameMatchFrom(line, i + 1)
  }

  /** `/(?:def\s+|async\s+def\s+)(\w+)/.exec(line)?.[1]`. */
  function NameMatch(line: string): Option<string>
  {
    NameMatchFrom(line, 0)
  }

  /** Neither alternative of the name pattern can start on a blank. */
  lemma NameAtSpace(line: string, i: nat)
    requires i < |line| && IsSpace(line[i])
    ensures NameAt(line, i).None?
  {
    var s := line[i..];
    assert s[0] == line[i];
    assert |s| < 3 || s[..3][0] == s[0];
    assert |s| < 5 || s[..5][0] == s[0];
  }

  /** The name pattern finds nothing inside the leading whitespace. */
  lemma {:induction false} NameMatchSkipsSpaces(line: string, i: nat)
    requires i <= |LeadingSpaces(line)|
    ensures NameMatchFrom(line, i) == NameMatchFrom(line, |LeadingSpaces(line)|)
    decreases |LeadingSpaces(line)| - i
  {
    var lead := LeadingSpaces(line);
    if i < |lead| {
      assert lead[i] == line[i];
      NameAtSpace(line, i);
      assert NameMatchFrom(line, i) == NameMatchFrom(line, i + 1);
      NameMatchSkipsSpaces(line, i + 1);
    }
  }

  /** The two alternatives start with different letters. */
  lemma DefExcludesAsync(s: string)
    ensures DefTail(s).None? || AsyncTail(s).None?
  {
    assert |s| < 3 || s[..3][0] == s[0];
    assert |s| < 5 || s[..5][0] == s[0];
  }

  /** On a header line the unanchored name pattern captures the header's
      own name, so the `'anonymous'` fallback of the analyzer never applies. */
  lemma NameMatchOnHeader(line: string)
    requires IsDefLine(line)
    ensures NameMatch(line) == HeaderName(line)
  {
    var k := |LeadingSpaces(line)|;
    NameMatchSkipsSpaces(line, 0);
    DefExcludesAsync(line[k..]);
    assert NameAt(line, k).Some?;
  }

  // ---------------------------------------------------------------------
  // Keyword complexity
  // ---------------------------------------------------------------------

  /** `w` occurs at `i` with a word boundary on both sides. */
  predicate HasWordAt(l: string, i: nat, w: string)
  {
    i + |w| <= |l| && l[i..i + |w|] == w
    && (i == 0 || !IsWordChar(l[i - 1]))
    && (i + |w| == |l| || !IsWordChar(l[i + |w|]))
  }

  /** `/\bw\b/.test(l)` for a keyword `w` made of word characters. */
  predicate ContainsWord(l: string, w: string)
  {
    exists i: nat | i <= |l| :: HasWordAt(l, i, w)
  }

  const Keywords: seq<string> := ["if", "elif", "for", "while", "except", "and", "or"]

  /** How many of the keywords among `ws` occur in `l`. */
  function KeywordHitsOf(l: string, ws: seq<string>): (n: nat)
    ensures n <= |ws|
  {
    if ws == [] then 0
    else KeywordHitsOf(l, ws[..|ws| - 1]) + (if ContainsWord(l, ws[|ws| - 1]) then 1 else 0)
  }

  /** `complexityPatterns.filter(p => p.test(l)).length`. */
  function KeywordHits(l: string): (n: nat)
    ensures n <= 7
  {
    KeywordHitsOf(l, Keywords)
  }

  /** The sum of the keyword hits of all the lines. */
  function KeywordTotal(lines: seq<string>): nat
  {
    if lines == [] then 0 else KeywordTotal(lines[..|lines| - 1]) + KeywordHits(lines[|lines| - 1])
  }

  lemma {:induction false} KeywordTotalBound(lines: seq<string>)
    ensures KeywordTotal(lines) <= 7 * |lines|
  {
    if lines != [] {
      KeywordTotalBound(lines[..|lines| - 1]);
    }
  }

  // ---------------------------------------------------------------------
  // Parameters
  // ---------------------------------------------------------------------

  /** Index of the first `c` in `s` at or after `from`, or -1. */
  function IndexOfFrom(s: string, c: char, from: nat): (k: int)
    requires from <= |s|
    ensures k == -1 || (from <= k < |s| && s[k] == c)
    ensures forall j :: from <= j < (if k == -1 then |s| else k) ==> s[j] != c
    decreases |s| - from
  {
    if from == |s| then -1 else if s[from] == c then from else IndexOfFrom(s, c, from + 1)
  }

  /** The capture of `/\(([^)]*)\)/.exec(line)`: the text between the first
      `(` and the first `)` after it. A later `(` cannot help when this one
      has no closing parenthesis after it. */
  function SignatureParams(line: string): Option<string>
  {
    var open := IndexOfFrom(line, '(', 0);
    if open == -1 then None
    else
      var close := IndexOfFrom(line, ')', open + 1);
      if close == -1 then None else Some(line[open + 1..close])
  }

  /** Number of pieces that are not blank. */
  function NonBlankCount(pieces: seq<string>): (n: nat)
    ensures n <= |pieces|
  {
    if pieces == [] then 0
    else NonBlankCount(pieces[..|pieces| - 1]) + (if Trim(pieces[|pieces| - 1]) != "" then 1 else 0)
  }

  /** The parameter count of a header: zero when there is no signature or it
      is blank after trimming, else the non-blank comma-separated pieces. */
  function ParamCount(line: string): nat
  {
    var sig := SignatureParams(line);
    if sig.None? || Trim(sig.value) == "" then 0 else NonBlankCount(Split(sig.value, ','))
  }

  lemma {:induction false} SplitWithoutSeparator(s: string, sep: char)
    requires sep !in s
    ensures Split(s, sep) == [s]
  {
    if s != [] {
      assert sep !in s[1..] by {
        forall j | 0 <= j < |s| - 1 ensures s[1..][j] != sep {
          assert s[1..][j] == s[j + 1];
        }
      }
      SplitWithoutSeparator(s[1..], sep);
      assert s[0] != sep;
      assert [s[0]] + s[1..] == s;
    }
  }

  /** The trim guard is redundant: the parameter count is always the number
      of non-blank pieces of the signature (zero without one), because a
      blank signature contains no comma and splits into a single blank piece. */
  lemma ParamCountIsNonBlankPieces(line: string)
    ensures ParamCount(line) == (if SignatureParams(line).None? then 0
                                 else NonBlankCount(Split(SignatureParams(line).value, ',')))
  {
    var sig := SignatureParams(line);
    if sig.Some? && Trim(sig.value) == "" {
      TrimEmptyIffBlank(sig.value);
      assert ',' !in sig.value by {
        forall j | 0 <= j < |sig.value|
          ensures sig.value[j] != ','
        {
          assert IsSpace(sig.value[j]);
        }
      }
      SplitWithoutSeparator(sig.value, ',');
      assert Split(sig.value, ',')[..0] == [];
    }
  }

  // ---------------------------------------------------------------------
  // Indentation depth
  // ---------------------------------------------------------------------

  /** `Math.floor(indent.replace(/\t/g, '    ').length / 4)` for the leading
      whitespace `indent` of the line. */
  function IndentDepth(l: string): nat
  {
    var indent := LeadingSpaces(l);
    (|indent| + 3 * CountChar(indent, '\t')) / 4
  }

  /** The reduce that keeps the deepest indentation, starting at 0. */
  function MaxIndentDepth(lines: seq<string>): (m: nat)
    ensures forall k :: 0 <= k < |lines| ==> IndentDepth(lines[k]) <= m
    ensures m == 0 || exists k :: 0 <= k < |lines| && IndentDepth(lines[k]) == m
  {
    if lines == [] then 0
    else
      var prev := MaxIndentDepth(lines[..|lines| - 1]);
      var d := IndentDepth(lines[|lines| - 1]);
      assert forall k :: 0 <= k < |lines| - 1 ==> lines[..|lines| - 1][k] == lines[k];
      if d > prev then d else prev
  }

  // ---------------------------------------------------------------------
  // Function spans
  // ---------------------------------------------------------------------

  /** The first line at or after `j` satisfying `isHeader`, or the number of
      lines: the `endLine` found by the inner scan when it starts at `j`. */
  function NextDef(lines: seq<string>, j: nat, isHeader: string -> bool): (e: nat)
    requires j <= |lines|
    ensures j <= e <= |lines|
    ensures e < |lines| ==> isHeader(lines[e])
    ensures forall k :: j <= k < e ==> !isHeader(lines[k])
    decreases |lines| - j
  {
    if j == |lines| then j else if isHeader(lines[j]) then j else NextDef(lines, j + 1, isHeader)
  }

  /** The indices of the header lines among the first `n` lines. */
  function DefStarts(lines: seq<string>, n: nat, isHeader: string -> bool): (ds: seq<nat>)
    requires n <= |lines|
    ensures forall k :: 0 <= k < |ds| ==> ds[k] < n
  {
    if n == 0 then []
    else
      var prev := DefStarts(lines, n - 1, isHeader);
      if isHeader(lines[n - 1]) then prev + [n - 1] else prev
  }

  /** The values `record` gives the header lines among the first `n`, in
      line order. */
  function HeaderRecords<T>(lines: seq<string>, n: nat, isHeader: string -> bool, record: nat -> T): seq<T>
    requires n <= |lines|
  {
    if n == 0 then []
    else HeaderRecords(lines, n - 1, isHeader, record) + (if isHeader(lines[n - 1]) then [record(n - 1)] else [])
  }

  /** The `k`-th header record is the record of the `k`-th header line. */
  lemma {:induction false} HeaderRecordsAt<T>(lines: seq<string>, n: nat, isHeader: string -> bool, record: nat -> T)
    requires n <= |lines|
    ensures var ds := DefStarts(lines, n, isHeader);
            var rs := HeaderRecords(lines, n, isHeader, record);
            |rs| == |ds| && forall k :: 0 <= k < |ds| ==> rs[k] == record(ds[k])
  {
    if n > 0 {
      HeaderRecordsAt(lines, n - 1, isHeader, record);
      var prevR, prevD := HeaderRecords(lines, n - 1, isHeader, record), DefStarts(lines, n - 1, isHeader);
      var rs, ds := HeaderRecords(lines, n, isHeader, record), DefStarts(lines, n, isHeader);
      if isHeader(lines[n - 1]) {
        assert rs == prevR + [record(n - 1)];
        assert ds == prevD + [n - 1];
        forall k | 0 <= k < |ds|
          ensures rs[k] == record(ds[k])
        {
          if k < |prevD| {
            assert rs[k] == prevR[k] && ds[k] == prevD[k];
          }
        }
      } else {
        assert rs == prevR && ds == prevD;
      }
    }
  }

  /** The header indices are headers, in increasing order. */
  lemma {:induction false} DefStartsOrdered(lines: seq<string>, n: nat, isHeader: string -> bool)
    requires n <= |lines|
    ensures forall k :: 0 <= k < |DefStarts(lines, n, isHeader)| ==> isHeader(lines[DefStarts(lines, n, isHeader)[k]])
    ensures forall k :: 0 <= k < |DefStarts(lines, n, isHeader)| - 1 ==>
              DefStarts(lines, n, isHeader)[k] < DefStarts(lines, n, isHeader)[k + 1]
  {
    if n > 0 {
      DefStartsOrdered(lines, n - 1, isHeader);
      var prev := DefStarts(lines, n - 1, isHeader);
      if isHeader(lines[n - 1]) {
        var ds := prev + [n - 1];
        forall k | 0 <= k < |ds|
          ensures isHeader(lines[ds[k]])
        {
          if k < |prev| {
            assert ds[k] == prev[k];
          }
        }
        forall k | 0 <= k < |ds| - 1
          ensures ds[k] < ds[k + 1]
        {
          assert ds[k] == prev[k];
          if k + 1 < |prev| {
            assert ds[k + 1] == prev[k + 1];
          }
        }
      }
    }
  }

  /** Every header line among the first `n` is one of the header indices. */
  lemma {:induction false} DefStartsComplete(lines: seq<string>, n: nat, isHeader: string -> bool)
    requires n <= |lines|
    ensures forall i :: 0 <= i < n && isHeader(lines[i]) ==> i in DefStarts(lines, n, isHeader)
  {
    if n > 0 {
      DefStartsComplete(lines, n - 1, isHeader);
    }
  }

  /** The header indices are headers, in increasing order and without gaps:
      no header comes before the first one, between two consecutive ones,
      or after the last. */
  lemma DefStartsShape(lines: seq<string>, n: nat, isHeader: string -> bool)
    requires n <= |lines|
    ensures forall k :: 0 <= k < |DefStarts(lines, n, isHeader)| ==> isHeader(lines[DefStarts(lines, n, isHeader)[k]])
    ensures forall k :: 0 <= k < |DefStarts(lines, n, isHeader)| - 1 ==>
              DefStarts(lines, n, isHeader)[k] < DefStarts(lines, n, isHeader)[k + 1]
    ensures forall i ::
              0 <= i < n && (|DefStarts(lines, n, isHeader)| == 0 || i < DefStarts(lines, n, isHeader)[0]) ==>
              !isHeader(lines[i])
    ensures forall k, i ::
              0 <= k < |DefStarts(lines, n, isHeader)| - 1 && DefStarts(lines, n, isHeader)[k] < i < DefStarts(lines, n, isHeader)[k + 1] ==>
              !isHeader(lines[i])
    ensures forall i ::
              |DefStarts(lines, n, isHeader)| > 0 && DefStarts(lines, n, isHeader)[|DefStarts(lines, n, isHeader)| - 1] < i < n ==>
              !isHeader(lines[i])
  {
    DefStartsOrdered(lines, n, isHeader);
    DefStartsComplete(lines, n, isHeader);
    SortedIndices(DefStarts(lines, n, isHeader));
  }

  /** In a strictly increasing sequence, an element lies before the first,
      between two neighbours or after the last only when it is absent. */
  lemma SortedIndices(ds: seq<nat>)
    requires forall k :: 0 <= k < |ds| - 1 ==> ds[k] < ds[k + 1]
    ensures forall i :: |ds| > 0 && i < ds[0] ==> i !in ds
    ensures forall k, i :: 0 <= k < |ds| - 1 && ds[k] < i < ds[k + 1] ==> i !in ds
    ensures forall i :: |ds| > 0 && ds[|ds| - 1] < i ==> i !in ds
  {
    assert forall j, k :: 0 <= j < k < |ds| ==> ds[j] < ds[k] by {
      forall j, k | 0 <= j < k < |ds|
        ensures ds[j] < ds[k]
      {
        var m := j;
        while m < k
          invariant j <= m <= k && ds[j] <= ds[m] && (m > j ==> ds[j] < ds[m])
        {
          m := m + 1;
        }
      }
    }
  }

  /** A function that is not the last one ends where the next begins. */
  lemma SpanEndsAtNextStart(lines: seq<string>, isHeader: string -> bool, k: nat)
    requires k + 1 < |DefStarts(lines, |lines|, isHeader)|
    ensures var ds := DefStarts(lines, |lines|, isHeader);
            NextDef(lines, ds[k] + 1, isHeader) == ds[k + 1]
  {
    DefStartsShape(lines, |lines|, isHeader);
  }

  /** The last function ends at the end of the file. */
  lemma LastSpanEndsAtEof(lines: seq<string>, isHeader: string -> bool)
    requires |DefStarts(lines, |lines|, isHeader)| > 0
    ensures var ds := DefStarts(lines, |lines|, isHeader);
            NextDef(lines, ds[|ds| - 1] + 1, isHeader) == |lines|
  {
    DefStartsShape(lines, |lines|, isHeader);
  }
}
