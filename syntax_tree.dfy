/** The syntax tree produced by the structural parser, taken as given, and
    the metric rules that every revision of the analyzer applies to it:
    which nodes count as functions, cyclomatic complexity as one plus the
    number of branching descendants, and nesting depth by a recursive walk.

    A node carries its kind, its first and last line, its children in
    document order, the result of `getName()` (`None` when the node has no
    such method or it returns `undefined`) and its parameter list (`None`
    when the node has no `getParameters`). */
module SyntaxTree {
  import opened Wrappers

  datatype Kind =
    | SourceFile | FunctionDeclaration | ArrowFunction | MethodDeclaration
    | ClassDeclaration | VariableDeclaration | Block
    | IfStatement | ForStatement | ForInStatement | ForOfStatement
    | WhileStatement | DoStatement | SwitchStatement | TryStatement
    | CaseClause | CatchClause | ConditionalExpression
    | AmpersandAmpersandToken | BarBarToken | QuestionQuestionToken
    | OtherKind(code: int)

  datatype Node = Node(
    kind: Kind,
    startLine: int,
    endLine: int,
    children: seq<Node>,
    name: Option<string>,
    params: Option<seq<string>>)

  // ---------------------------------------------------------------------
  // Traversal order
  // ---------------------------------------------------------------------

  /** The node followed by all its descendants, in document (pre-)order. */
  function Subtree(n: Node): (r: seq<Node>)
    decreases n
    ensures |r| >= 1 && r[0] == n
  {
    [n] + Forest(n.children)
  }

  /** The subtrees of a list of siblings, one after another. */
  function Forest(s: seq<Node>): seq<Node>
    decreases s
  {
    if s == [] then [] else Forest(s[..|s| - 1]) + Subtree(s[|s| - 1])
  }

  /** Every strict descendant, in the order `forEachDescendant` visits them. */
  function Descendants(n: Node): seq<Node>
  {
    Forest(n.children)
  }

  /** Number of nodes in `s` whose kind satisfies `p`. */
  function Count(s: seq<Node>, p: Kind -> bool): nat
  {
    if s == [] then 0 else Count(s[..|s| - 1], p) + (if p(s[|s| - 1].kind) then 1 else 0)
  }

  lemma {:induction false} CountAppend(a: seq<Node>, b: seq<Node>, p: Kind -> bool)
    ensures Count(a + b, p) == Count(a, p) + Count(b, p)
    decreases |b|
  {
    if b != [] {
      assert (a + b)[..|a + b| - 1] == a + b[..|b| - 1];
      CountAppend(a, b[..|b| - 1], p);
    } else {
      assert a + b == a;
    }
  }

  /** Count over a subtree: the node itself, then its descendants. */
  lemma CountSubtree(n: Node, p: Kind -> bool)
    ensures Count(Subtree(n), p) == (if p(n.kind) then 1 else 0) + Count(Descendants(n), p)
  {
    CountAppend([n], Forest(n.children), p);
  }

  /** Count over a forest grown by one sibling. */
  lemma CountForestSnoc(s: seq<Node>, i: nat, p: Kind -> bool)
    requires i < |s|
    ensures Count(Forest(s[..i + 1]), p) == Count(Forest(s[..i]), p) + Count(Subtree(s[i]), p)
  {
    assert s[..i + 1][..i] == s[..i];
    CountAppend(Forest(s[..i]), Subtree(s[i]), p);
  }

  // ---------------------------------------------------------------------
  // Cyclomatic complexity
  // ---------------------------------------------------------------------

  /** The twelve branching kinds: if, the four loops, do, case, catch, the
      conditional expression and the `&&`, `||`, `??` operator tokens. */
  predicate IsComplexityKind(k: Kind)
  {
    k.IfStatement? || k.ForStatement? || k.ForInStatement? || k.ForOfStatement?
    || k.WhileStatement? || k.DoStatement? || k.CaseClause? || k.CatchClause?
    || k.ConditionalExpression? || k.AmpersandAmpersandToken? || k.BarBarToken?
    || k.QuestionQuestionToken?
  }

  /** Cyclomatic complexity of a function node: one plus the number of its
      strict descendants of a branching kind. */
  function Complexity(fn: Node): int
  {
    1 + Count(Descendants(fn), IsComplexityKind)
  }

  /** `n.forEachDescendant(cb)` where `cb` increments `counter` on every
      branching node. */
  method CountBranches(n: Node, counter: int) returns (result: int)
    ensures result == counter + Count(Descendants(n), IsComplexityKind)
    decreases n
  {
    result := counter;
    var i := 0;
    while i < |n.children|
      invariant 0 <= i <= |n.children|
      invariant result == counter + Count(Forest(n.children[..i]), IsComplexityKind)
    {
      var child := n.children[i];
      if IsComplexityKind(child.kind) {
        result := result + 1;
      }
      result := CountBranches(child, result);
      CountForestSnoc(n.children, i, IsComplexityKind);
      CountSubtree(child, IsComplexityKind);
      i := i + 1;
    }
    assert n.children[..|n.children|] == n.children;
  }

  /** The complexity counter of the analyzers: starts at 1 and is raised by
      the descendant walk. */
  method CyclomaticComplexity(fn: Node) returns (c: int)
    ensures c == Complexity(fn)
    ensures c >= 1
  {
    c := CountBranches(fn, 1);
  }

  /** A node of a forest contributes its own branches (and itself, when it
      branches) to the count over the forest. */
  lemma {:induction false} ForestCountCovers(s: seq<Node>, d: Node)
    requires d in Forest(s)
    ensures Count(Descendants(d), IsComplexityKind) + (if IsComplexityKind(d.kind) then 1 else 0)
            <= Count(Forest(s), IsComplexityKind)
    decreases s
  {
    var pre, last := s[..|s| - 1], s[|s| - 1];
    CountAppend(Forest(pre), Subtree(last), IsComplexityKind);
    CountSubtree(last, IsComplexityKind);
    if d in Forest(pre) {
      ForestCountCovers(pre, d);
    } else if d != last {
      assert d in Forest(last.children);
      ForestCountCovers(last.children, d);
    }
  }

  /** Complexity counts every branch below a function, including those inside
      nested (arrow) functions: a descendant's complexity never exceeds its
      ancestor's, and a branching descendant adds one on top. */
  lemma NestedBranchesCount(fn: Node, d: Node)
    requires d in Descendants(fn)
    ensures Complexity(fn) >= Complexity(d) + (if IsComplexityKind(d.kind) then 1 else 0)
  {
    ForestCountCovers(fn.children, d);
  }

  // ---------------------------------------------------------------------
  // Nesting depth
  // ---------------------------------------------------------------------

  /** The eight nesting kinds: if, the four loops, do, switch and try (a
      plain block does not count). */
  predicate IsNestingKind(k: Kind)
  {
    k.IfStatement? || k.ForStatement? || k.ForInStatement? || k.ForOfStatement?
    || k.WhileStatement? || k.DoStatement? || k.SwitchStatement? || k.TryStatement?
  }

  function Max(a: int, b: int): int
  {
    if a >= b then a else b
  }

  /** The depth passed down to a child: one more when the child nests. */
  function Step(child: Node, current: int): int
  {
    if IsNestingKind(child.kind) then current + 1 else current
  }

  /** `computeMaxDepth(n, current)`: the largest depth reached anywhere below
      `n`, counting one level per nesting node on the way down. */
  function MaxDepth(n: Node, current: int): int
    decreases n
  {
    MaxDepthOver(n.children, current)
  }

  /** The running maximum of the loop over the first siblings `cs`. */
  function MaxDepthOver(cs: seq<Node>, current: int): int
    decreases cs
  {
    if cs == [] then current
    else
      var c := cs[|cs| - 1];
      Max(MaxDepthOver(cs[..|cs| - 1], current), MaxDepth(c, Step(c, current)))
  }

  /** The recursive walk with its loop-updated maximum. */
  method ComputeMaxDepth(n: Node, current: int) returns (max: int)
    ensures max == MaxDepth(n, current)
    ensures max >= current
    decreases n
  {
    max := current;
    var i := 0;
    while i < |n.children|
      invariant 0 <= i <= |n.children|
      invariant max == MaxDepthOver(n.children[..i], current)
      invariant max >= current
    {
      var child := n.children[i];
      var next := if IsNestingKind(child.kind) then current + 1 else current;
      var depth := ComputeMaxDepth(child, next);
      max := Max(max, depth);
      assert n.children[..i + 1][..i] == n.children[..i];
      i := i + 1;
    }
    assert n.children[..|n.children|] == n.children;
  }

  /** Starting the walk deeper shifts every depth by the same amount. */
  lemma {:induction false} MaxDepthOverShift(cs: seq<Node>, current: int, d: int)
    ensures MaxDepthOver(cs, current + d) == MaxDepthOver(cs, current) + d
    decreases cs
  {
    if cs != [] {
      var c := cs[|cs| - 1];
      MaxDepthOverShift(cs[..|cs| - 1], current, d);
      MaxDepthOverShift(c.children, Step(c, current), d);
      assert Step(c, current + d) == Step(c, current) + d;
    }
  }

  /** `computeMaxDepth(n, c) == c + computeMaxDepth(n, 0)`. */
  lemma MaxDepthShift(n: Node, current: int)
    ensures MaxDepth(n, current) == current + MaxDepth(n, 0)
  {
    MaxDepthOverShift(n.children, 0, current);
  }

  /** Depth bounds over a forest: never below the start, never above the
      start plus the number of nesting nodes, and equal to the start exactly
      when no node of the forest nests. */
  lemma {:induction false} MaxDepthOverBounds(cs: seq<Node>, current: int)
    ensures current <= MaxDepthOver(cs, current) <= current + Count(Forest(cs), IsNestingKind)
    ensures MaxDepthOver(cs, current) == current <==> Count(Forest(cs), IsNestingKind) == 0
    decreases cs
  {
    if cs != [] {
      var pre, c := cs[..|cs| - 1], cs[|cs| - 1];
      MaxDepthOverBounds(pre, current);
      MaxDepthOverBounds(c.children, Step(c, current));
      CountAppend(Forest(pre), Subtree(c), IsNestingKind);
      CountSubtree(c, IsNestingKind);
    }
  }

  /** A function body has depth `c` (0 from the analyzers) exactly when no
      descendant is an if, loop, switch or try; otherwise the depth is at
      most `c` plus the number of such descendants. The start node's own
      kind never counts. */
  lemma MaxDepthBounds(n: Node, current: int)
    ensures current <= MaxDepth(n, current) <= current + Count(Descendants(n), IsNestingKind)
    ensures MaxDepth(n, current) == current <==> Count(Descendants(n), IsNestingKind) == 0
  {
    MaxDepthOverBounds(n.children, current);
  }

  // ---------------------------------------------------------------------
  // Function collection
  // ---------------------------------------------------------------------

  /** A collected function node together with `getParent().getName()`. */
  datatype Site = Site(fn: Node, parentName: Option<string>)

  /** The nodes of kind `k` among the siblings `cs`, all with the same parent. */
  function SitesOfKind(cs: seq<Node>, k: Kind, parentName: Option<string>): (r: seq<Site>)
    ensures forall i :: 0 <= i < |r| ==> r[i].fn.kind == k && r[i].fn in cs && r[i].parentName == parentName
  {
    if cs == [] then []
    else
      SitesOfKind(cs[..|cs| - 1], k, parentName)
      + (if cs[|cs| - 1].kind == k then [Site(cs[|cs| - 1], parentName)] else [])
  }

  /** `sourceFile.getFunctions()`: the top-level function declarations. */
  function TopLevelFunctions(root: Node): seq<Site>
  {
    SitesOfKind(root.children, FunctionDeclaration, root.name)
  }

  /** `getDescendantsOfKind(ArrowFunction)`: every arrow function below `n`,
      in document order, with its direct parent's name. */
  function ArrowSites(n: Node): seq<Site>
    decreases n
  {
    ArrowSitesIn(n.children, n.name)
  }

  function ArrowSitesIn(cs: seq<Node>, parentName: Option<string>): seq<Site>
    decreases cs
  {
    if cs == [] then []
    else
      var c := cs[|cs| - 1];
      ArrowSitesIn(cs[..|cs| - 1], parentName)
      + (if c.kind == ArrowFunction then [Site(c, parentName)] else [])
      + ArrowSites(c)
  }

  /** `getClasses().flatMap(cls => cls.getMethods())` over the siblings `cs`. */
  function MethodsOfClasses(cs: seq<Node>): seq<Site>
  {
    if cs == [] then []
    else
      var c := cs[|cs| - 1];
      MethodsOfClasses(cs[..|cs| - 1])
      + (if c.kind == ClassDeclaration then SitesOfKind(c.children, MethodDeclaration, c.name) else [])
  }

  /** All collected functions, in the analyzers' order: top-level function
      declarations, then arrow functions, then methods of top-level classes. */
  function FunctionSites(root: Node): seq<Site>
  {
    TopLevelFunctions(root) + ArrowSites(root) + MethodsOfClasses(root.children)
  }

  /** The nodes of a list of sites. */
  function SiteNodes(ss: seq<Site>): (r: seq<Node>)
    ensures |r| == |ss|
  {
    if ss == [] then [] else SiteNodes(ss[..|ss| - 1]) + [ss[|ss| - 1].fn]
  }

  /** The nodes of kind `k` in `s`, in order. */
  function OfKind(s: seq<Node>, k: Kind): seq<Node>
  {
    if s == [] then [] else OfKind(s[..|s| - 1], k) + (if s[|s| - 1].kind == k then [s[|s| - 1]] else [])
  }

  lemma {:induction false} OfKindAppend(a: seq<Node>, b: seq<Node>, k: Kind)
    ensures OfKind(a + b, k) == OfKind(a, k) + OfKind(b, k)
    decreases |b|
  {
    if b != [] {
      assert (a + b)[..|a + b| - 1] == a + b[..|b| - 1];
      OfKindAppend(a, b[..|b| - 1], k);
    } else {
      assert a + b == a;
    }
  }

  lemma {:induction false} SiteNodesAppend(a: seq<Site>, b: seq<Site>)
    ensures SiteNodes(a + b) == SiteNodes(a) + SiteNodes(b)
    decreases |b|
  {
    if b != [] {
      assert (a + b)[..|a + b| - 1] == a + b[..|b| - 1];
      SiteNodesAppend(a, b[..|b| - 1]);
    } else {
      assert a + b == a;
    }
  }

  lemma {:induction false} ArrowSitesInOrder(cs: seq<Node>, parentName: Option<string>)
    ensures SiteNodes(ArrowSitesIn(cs, parentName)) == OfKind(Forest(cs), ArrowFunction)
    decreases cs
  {
    if cs != [] {
      var pre, c := cs[..|cs| - 1], cs[|cs| - 1];
      var own := if c.kind == ArrowFunction then [Site(c, parentName)] else [];
      var a, d := ArrowSitesIn(pre, parentName), ArrowSites(c);
      ArrowSitesInOrder(pre, parentName);
      ArrowSitesInOrder(c.children, c.name);
      OfKindAppend(Forest(pre), Subtree(c), ArrowFunction);
      OfKindAppend([c], Forest(c.children), ArrowFunction);
      assert Subtree(c) == [c] + Forest(c.children);
      var x, y, z := OfKind(Forest(pre), ArrowFunction), OfKind([c], ArrowFunction), OfKind(Forest(c.children), ArrowFunction);
      AppendAssoc(x, y, z);
      SiteNodesAppend(a, own);
      SiteNodesAppend(a + own, d);
      assert OfKind([c], ArrowFunction) == SiteNodes(own) by {
        assert [c][..0] == [];
      }
      calc {
        SiteNodes(ArrowSitesIn(cs, parentName));
        SiteNodes(a + own + d);
        SiteNodes(a) + SiteNodes(own) + SiteNodes(d);
        OfKind(Forest(pre), ArrowFunction) + OfKind([c], ArrowFunction) + OfKind(Forest(c.children), ArrowFunction);
        OfKind(Forest(pre), ArrowFunction) + OfKind(Subtree(c), ArrowFunction);
        OfKind(Forest(pre) + Subtree(c), ArrowFunction);
        OfKind(Forest(cs), ArrowFunction);
      }
    }
  }

  /** The arrow functions collected are exactly the arrow-function
      descendants of the file, each once, in document order. */
  lemma ArrowSitesAreArrowDescendants(root: Node)
    ensures SiteNodes(ArrowSites(root)) == OfKind(Descendants(root), ArrowFunction)
  {
    ArrowSitesInOrder(root.children, root.name);
  }

  // ---------------------------------------------------------------------
  // Per-function fields shared by the revisions
  // ---------------------------------------------------------------------

  /** `getEndLineNumber() - getStartLineNumber() + 1`. */
  function LineCount(fn: Node): int
  {
    fn.endLine - fn.startLine + 1
  }

  /** `getParameters().length` when the node has a parameter list, else 0. */
  function ParameterCount(fn: Node): nat
  {
    if fn.params.Some? then |fn.params.value| else 0
  }
}
