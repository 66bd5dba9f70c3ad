/** Discovery of operator packages under a worktree (engines/workspace/git_workspace.py): a bounded
    depth-first walk with an explicit stack. */
module OperatorScan {
  import opened Text

  /** A directory with its entries, or a plain file. A directory may refuse to be listed. */
  datatype Node = Dir(name: string, readable: bool, kids: seq<Node>) | File(name: string)

  /** The names from the worktree down to a directory; the worktree itself is the empty path. */
  type Path = seq<string>

  datatype Entry = Entry(path: Path, node: Node, depth: int)

  const DENIED := {"tests", "test", "ut", "st", "examples", "example", "docs"}

  /** Some name inside the worktree marks the path as something else than an operator. */
  predicate DeniedPath(path: Path) {
    exists i :: 0 <= i < |path| && LowerText(path[i]) in DENIED
  }

  predicate HasKidDir(n: Node, name: string) {
    n.Dir? && exists i :: 0 <= i < |n.kids| && n.kids[i].Dir? && n.kids[i].name == name
  }

  predicate IsOperatorRoot(n: Node, path: Path) {
    !DeniedPath(path) && (HasKidDir(n, "op_host") || HasKidDir(n, "op_kernel"))
  }

  /** What makes a directory an operator root: it holds a directory of sources, and no name on its way from the worktree
      is, letter case apart, one of those kept for tests, examples and documents. */
  lemma IsOperatorRootIff(n: Node, path: Path)
    ensures IsOperatorRoot(n, path)
            <==> && n.Dir?
                 && (exists k :: k in n.kids && k.Dir? && (k.name == "op_host" || k.name == "op_kernel"))
                 && forall name :: name in path ==>
                      var low := LowerText(name);
                      && low != "tests" && low != "test" && low != "ut" && low != "st"
                      && low != "examples" && low != "example" && low != "docs"
  {
    if n.Dir? && IsOperatorRoot(n, path) {
      var i :| 0 <= i < |n.kids| && n.kids[i].Dir? && (n.kids[i].name == "op_host" || n.kids[i].name == "op_kernel");
      assert n.kids[i] in n.kids;
    }
    if n.Dir? && exists k :: k in n.kids && k.Dir? && (k.name == "op_host" || k.name == "op_kernel") {
      var k :| k in n.kids && k.Dir? && (k.name == "op_host" || k.name == "op_kernel");
      var i :| 0 <= i < |n.kids| && n.kids[i] == k;
    }
    DeniedPathIff(path);
  }

  lemma DeniedPathIff(path: Path)
    ensures DeniedPath(path) <==>
            exists name :: name in path
                           && var low := LowerText(name);
                              || low == "tests" || low == "test" || low == "ut" || low == "st"
                              || low == "examples" || low == "example" || low == "docs"
  {
    if DeniedPath(path) {
      var i :| 0 <= i < |path| && LowerText(path[i]) in DENIED;
      assert path[i] in path;
    }
    if name :| name in path && LowerText(name) in DENIED {
      var i :| 0 <= i < |path| && path[i] == name;
    }
  }

  predicate Hidden(name: string) {
    name != "" && name[0] == '.'
  }

  // ----- what the walk should find

  /** A visible directory that a readable one lists. */
  predicate Step(above: Node, below: Node, name: string) {
    && above.Dir? && above.readable && below in above.kids
    && below.Dir? && below.name == name && (name == "" || name[0] != '.')
  }

  /** A way down from `n` along `steps`. */
  ghost predicate IsChain(chain: seq<Node>, n: Node, steps: Path) {
    && |chain| == |steps| + 1 && chain[0] == n
    && forall i :: 0 <= i < |steps| ==> Step(chain[i], chain[i + 1], steps[i])
  }

  /** The path is a topmost operator root within the depth bound. */
  ghost predicate Topmost(worktree: Node, p: Path, maxDepth: int) {
    && (p == [] || |p| <= maxDepth)
    && exists chain ::
         && IsChain(chain, worktree, p)
         && IsOperatorRoot(chain[|p|], p)
         && forall i :: 0 <= i < |p| ==> !IsOperatorRoot(chain[i], p[..i])
  }

  // ----- the walk

  /** What remains to be found below a directory that is not an operator root itself. */
  ghost predicate Below(n: Node, base: Path, rest: Path, budget: int)
    decreases |rest|
  {
    && budget > 0 && n.Dir? && n.readable && rest != []
    && exists i :: 0 <= i < |n.kids| && ByKid(n.kids[i], base, rest, budget)
  }

  /** What one entry of a directory contributes. */
  ghost predicate ByKid(k: Node, base: Path, rest: Path, budget: int)
    requires rest != []
    decreases |rest|, 0
  {
    && k.Dir? && !Hidden(k.name) && k.name == rest[0]
    && if IsOperatorRoot(k, base + [k.name]) then |rest| == 1
       else Below(k, base + [k.name], rest[1..], budget - 1)
  }

  ghost predicate FromEntry(e: Entry, p: Path, maxDepth: int) {
    e.path <= p && Below(e.node, e.path, p[|e.path|..], maxDepth - e.depth)
  }

  ghost predicate FromStack(stack: seq<Entry>, p: Path, maxDepth: int) {
    exists i :: 0 <= i < |stack| && FromEntry(stack[i], p, maxDepth)
  }

  ghost predicate FromKids(kids: seq<Node>, base: Path, p: Path, budget: int) {
    base < p && exists i :: 0 <= i < |kids| && ByKid(kids[i], base, p[|base|..], budget)
  }

  function Size(n: Node): nat {
    if n.File? then 1 else 1 + SizeAll(n.kids)
  }

  function SizeAll(s: seq<Node>): nat {
    if s == [] then 0 else Size(s[0]) + SizeAll(s[1..])
  }

  function Work(stack: seq<Entry>): nat {
    if stack == [] then 0 else Work(stack[..|stack| - 1]) + Size(stack[|stack| - 1].node)
  }

  lemma WorkPush(stack: seq<Entry>, e: Entry)
    ensures Work(stack + [e]) == Work(stack) + Size(e.node)
  {
    assert (stack + [e])[..|stack|] == stack;
  }

  lemma FromStackPush(stack: seq<Entry>, e: Entry, p: Path, maxDepth: int)
    ensures FromStack(stack + [e], p, maxDepth) <==> FromStack(stack, p, maxDepth) || FromEntry(e, p, maxDepth)
  {
    var longer := stack + [e];
    if i :| 0 <= i < |stack| && FromEntry(stack[i], p, maxDepth) {
      assert FromEntry(longer[i], p, maxDepth);
    }
    if FromEntry(e, p, maxDepth) {
      assert FromEntry(longer[|stack|], p, maxDepth);
    }
  }

  lemma FromKidsFirst(kids: seq<Node>, base: Path, p: Path, budget: int)
    requires kids != []
    ensures FromKids(kids, base, p, budget) <==>
            (base < p && ByKid(kids[0], base, p[|base|..], budget)) || FromKids(kids[1..], base, p, budget)
  {
    if base < p {
      var rest := p[|base|..];
      if i :| 0 <= i < |kids| && ByKid(kids[i], base, rest, budget) {
        if i > 0 {
          assert ByKid(kids[1..][i - 1], base, rest, budget);
        }
      }
      if i :| 0 <= i < |kids[1..]| && ByKid(kids[1..][i], base, rest, budget) {
        assert ByKid(kids[i + 1], base, rest, budget);
      }
    }
  }

  /** An entry that is not an operator root contributes what the stack entry made of it contributes;
      an operator root contributes itself. */
  lemma KidIsEntry(k: Node, base: Path, depth: int, p: Path, maxDepth: int)
    requires k.Dir? && !Hidden(k.name)
    ensures var e := Entry(base + [k.name], k, depth + 1);
            !IsOperatorRoot(k, base + [k.name]) ==>
              (FromEntry(e, p, maxDepth) <==> base < p && ByKid(k, base, p[|base|..], maxDepth - depth))
    ensures IsOperatorRoot(k, base + [k.name]) ==>
              (p == base + [k.name] <==> base < p && ByKid(k, base, p[|base|..], maxDepth - depth))
  {
    var here := base + [k.name];
    if base < p && p[|base|] == k.name {
      assert here <= p;
      assert p[|here|..] == p[|base|..][1..];
    }
    if here <= p {
      assert p[|base|] == k.name;
    }
  }

  /** What the entries from `kids` on contribute, by the kind of the first one. */
  lemma FirstKid(kids: seq<Node>, base: Path, depth: int, p: Path, maxDepth: int, budget: int)
    requires kids != [] && budget == maxDepth - depth
    ensures var k := kids[0];
            var here := base + [k.name];
            var rest := FromKids(kids[1..], base, p, budget);
            FromKids(kids, base, p, budget) <==>
              if !k.Dir? || Hidden(k.name) then rest
              else if IsOperatorRoot(k, here) then p == here || rest
              else FromEntry(Entry(here, k, depth + 1), p, maxDepth) || rest
  {
    FromKidsFirst(kids, base, p, budget);
    hide FromKids, FromEntry, IsOperatorRoot;
    if kids[0].Dir? && !Hidden(kids[0].name) {
      KidIsEntry(kids[0], base, depth, p, maxDepth);
    }
  }

  /** Adds a root that is an operator root and not listed yet. */
  method AddRoot(roots: seq<Path>, node: Node, candidate: Path) returns (r: seq<Path>)
    requires forall i, j :: 0 <= i < j < |roots| ==> roots[i] != roots[j]
    ensures forall i, j :: 0 <= i < j < |r| ==> r[i] != r[j]
    ensures forall p :: p in r <==> p in roots || (p == candidate && IsOperatorRoot(node, candidate))
  {
    r := roots;
    if candidate in roots {
      return;
    }
    if !IsOperatorRoot(node, candidate) {
      return;
    }
    r := roots + [candidate];
  }

  /** Lists the entries of one directory: operator roots are added, other visible directories stacked. */
  method VisitKids(e: Entry, roots0: seq<Path>, stack0: seq<Entry>, maxDepth: int)
    returns (roots: seq<Path>, stack: seq<Entry>)
    requires e.node.Dir?
    requires forall i, j :: 0 <= i < j < |roots0| ==> roots0[i] != roots0[j]
    ensures forall i, j :: 0 <= i < j < |roots| ==> roots[i] != roots[j]
    ensures Work(stack) < Work(stack0) + Size(e.node)
    ensures forall p :: p in roots || FromStack(stack, p, maxDepth) <==>
              || p in roots0 || FromStack(stack0, p, maxDepth)
              || FromKids(e.node.kids, e.path, p, maxDepth - e.depth)
  {
    hide FromKids, FromStack, FromEntry, IsOperatorRoot, Hidden;
    ghost var budget := maxDepth - e.depth;
    roots, stack := roots0, stack0;
    var kids := e.node.kids;
    assert kids[0..] == kids;
    for i := 0 to |kids|
      invariant forall i, j :: 0 <= i < j < |roots| ==> roots[i] != roots[j]
      invariant Work(stack) + SizeAll(kids[i..]) <= Work(stack0) + SizeAll(kids)
      invariant forall p ::
                  || p in roots || FromStack(stack, p, maxDepth)
                  || FromKids(kids[i..], e.path, p, budget)
                  <==>
                  || p in roots0 || FromStack(stack0, p, maxDepth)
                  || FromKids(kids, e.path, p, budget)
    {
      var child := kids[i];
      var entry := Entry(e.path + [child.name], child, e.depth + 1);
      assert kids[i..][0] == child && kids[i..][1..] == kids[i + 1..];
      ghost var later := kids[i + 1..];
      forall p
        ensures FromKids(kids[i..], e.path, p, budget) <==>
                  if !child.Dir? || Hidden(child.name) then FromKids(later, e.path, p, budget)
                  else if IsOperatorRoot(child, entry.path) then p == entry.path || FromKids(later, e.path, p, budget)
                  else FromEntry(entry, p, maxDepth) || FromKids(later, e.path, p, budget)
      {
        FirstKid(kids[i..], e.path, e.depth, p, maxDepth, budget);
      }
      if !child.Dir? || Hidden(child.name) {
        continue;
      }
      if IsOperatorRoot(child, entry.path) {
        roots := AddRoot(roots, child, entry.path);
        continue;
      }
      ghost var longer := stack + [entry];
      forall p
        ensures FromStack(longer, p, maxDepth) <==> FromStack(stack, p, maxDepth) || FromEntry(entry, p, maxDepth)
      {
        FromStackPush(stack, entry, p, maxDepth);
      }
      WorkPush(stack, entry);
      stack := stack + [entry];
    }
    assert kids[|kids|..] == [];
    ghost var none: seq<Node> := [];
    forall p ensures !FromKids(none, e.path, p, budget) {
      FromNoKids(e.path, p, budget);
    }
  }

  lemma FromNoKids(base: Path, p: Path, budget: int)
    ensures !FromKids([], base, p, budget)
  {
  }

  /** The walk finds exactly the topmost operator roots within the bound, each once. */
  method ListOperatorRoots(worktree: Node, maxDepth: int) returns (roots: seq<Path>)
    ensures forall p :: p in roots <==> Topmost(worktree, p, maxDepth)
    ensures forall i, j :: 0 <= i < j < |roots| ==> roots[i] != roots[j]
  {
    roots := [];
    if IsOperatorRoot(worktree, []) {
      forall p ensures p == [] <==> Topmost(worktree, p, maxDepth) {
        TopmostOfRoot(worktree, p, maxDepth);
      }
      roots := AddRoot(roots, worktree, []);
      return;
    }
    var stack := [Entry([], worktree, 0)];
    forall p ensures FromStack(stack, p, maxDepth) <==> Topmost(worktree, p, maxDepth) {
      FromStackPush([], Entry([], worktree, 0), p, maxDepth);
      assert p[0..] == p;
      BelowIsTopmost(worktree, p, maxDepth);
    }
    while stack != []
      invariant forall p :: p in roots || FromStack(stack, p, maxDepth) <==> Topmost(worktree, p, maxDepth)
      invariant forall i, j :: 0 <= i < j < |roots| ==> roots[i] != roots[j]
      decreases Work(stack)
    {
      var last := |stack| - 1;
      var cur := stack[last];
      var below := stack[..last];
      assert stack == below + [cur];
      WorkPush(below, cur);
      forall p
        ensures FromStack(stack, p, maxDepth) <==>
                || FromStack(below, p, maxDepth)
                || (cur.depth < maxDepth && cur.node.Dir? && cur.node.readable
                    && FromKids(cur.node.kids, cur.path, p, maxDepth - cur.depth))
      {
        FromStackPush(below, cur, p, maxDepth);
        EntryIsKids(cur, p, maxDepth);
      }
      SizePositive(cur.node);
      stack := below;
      if cur.depth >= maxDepth || !cur.node.Dir? || !cur.node.readable {
        continue;
      }
      roots, stack := VisitKids(cur, roots, stack, maxDepth);
    }
  }

  lemma SizePositive(n: Node)
    ensures Size(n) > 0
  {
  }

  lemma EntryIsKids(e: Entry, p: Path, maxDepth: int)
    ensures FromEntry(e, p, maxDepth) <==>
            && e.depth < maxDepth && e.node.Dir? && e.node.readable
            && FromKids(e.node.kids, e.path, p, maxDepth - e.depth)
  {
  }

  /** A worktree that is an operator root is the only topmost one. */
  lemma TopmostOfRoot(worktree: Node, p: Path, maxDepth: int)
    requires IsOperatorRoot(worktree, [])
    ensures Topmost(worktree, p, maxDepth) <==> p == []
  {
    if p == [] {
      assert IsChain([worktree], worktree, []);
    } else {
      assert p[..0] == [];
    }
  }

  /** The operator root a chain ends at is the first one on it, below a start that is none. */
  ghost predicate FirstRoot(chain: seq<Node>, base: Path, rest: Path) {
    && |chain| == |rest| + 1
    && IsOperatorRoot(chain[|rest|], base + rest)
    && forall i :: 0 <= i < |rest| ==> !IsOperatorRoot(chain[i], base + rest[..i])
  }

  lemma ChainCons(n: Node, tail: seq<Node>, rest: Path)
    requires tail != [] && rest != []
    requires Step(n, tail[0], rest[0]) && IsChain(tail, tail[0], rest[1..])
    ensures IsChain([n] + tail, n, rest)
  {
    hide Step;
    var chain := [n] + tail;
    forall j | 0 <= j < |rest| ensures Step(chain[j], chain[j + 1], rest[j]) {
      if j > 0 {
        assert chain[j] == tail[j - 1] && chain[j + 1] == tail[j] && rest[j] == rest[1..][j - 1];
      }
    }
  }

  lemma FirstRootCons(n: Node, tail: seq<Node>, base: Path, rest: Path)
    requires rest != [] && |tail| == |rest|
    ensures FirstRoot([n] + tail, base, rest) <==>
            !IsOperatorRoot(n, base) && FirstRoot(tail, base + [rest[0]], rest[1..])
  {
    hide IsOperatorRoot;
    var chain := [n] + tail;
    var here := base + [rest[0]];
    assert base + rest[..0] == base;
    assert base + rest == here + rest[1..];
    assert forall j :: 0 <= j < |rest[1..]| ==> here + rest[1..][..j] == base + rest[..j + 1];
    if FirstRoot(tail, here, rest[1..]) && !IsOperatorRoot(n, base) {
      forall j | 0 <= j < |rest| ensures !IsOperatorRoot(chain[j], base + rest[..j]) {
        if j > 0 {
          assert chain[j] == tail[j - 1];
          assert here + rest[1..][..j - 1] == base + rest[..j];
        }
      }
    }
    if FirstRoot(chain, base, rest) {
      assert !IsOperatorRoot(chain[0], base + rest[..0]);
      forall j | 0 <= j < |rest[1..]| ensures !IsOperatorRoot(tail[j], here + rest[1..][..j]) {
        assert tail[j] == chain[j + 1];
        assert !IsOperatorRoot(chain[j + 1], base + rest[..j + 1]);
      }
    }
  }

  lemma {:induction false} BelowHasChain(n: Node, base: Path, rest: Path, budget: int) returns (chain: seq<Node>)
    requires Below(n, base, rest, budget) && !IsOperatorRoot(n, base)
    ensures |rest| <= budget
    ensures IsChain(chain, n, rest) && FirstRoot(chain, base, rest)
    decreases |rest|
  {
    var i :| 0 <= i < |n.kids| && ByKid(n.kids[i], base, rest, budget);
    var k := n.kids[i];
    var here := base + [k.name];
    var tail := [k];
    if IsOperatorRoot(k, here) {
      assert here + rest[1..] == here;
    } else {
      tail := BelowHasChain(k, here, rest[1..], budget - 1);
    }
    chain := [n] + tail;
    hide IsOperatorRoot, Below;
    ChainCons(n, tail, rest);
    FirstRootCons(n, tail, base, rest);
  }

  lemma {:induction false} ChainIsBelow(chain: seq<Node>, n: Node, base: Path, rest: Path, budget: int)
    requires IsChain(chain, n, rest) && FirstRoot(chain, base, rest)
    requires rest != [] && |rest| <= budget
    ensures Below(n, base, rest, budget)
    decreases |rest|
  {
    var tail := chain[1..];
    var k := chain[1];
    assert chain == [n] + tail;
    assert Step(chain[0], chain[1], rest[0]);
    var i :| 0 <= i < |n.kids| && n.kids[i] == k;
    var here := base + [k.name];
    FirstRootCons(n, tail, base, rest);
    ChainTail(chain, n, rest);
    if |rest| == 1 {
      assert here + rest[1..] == here;
    } else {
      FirstRootIsLast(tail, here, rest[1..]);
      hide IsOperatorRoot;
      ChainIsBelow(tail, k, here, rest[1..], budget - 1);
    }
    hide IsOperatorRoot, IsChain, FirstRoot;
    assert ByKid(n.kids[i], base, rest, budget);
  }

  lemma FirstRootIsLast(chain: seq<Node>, base: Path, rest: Path)
    requires FirstRoot(chain, base, rest) && rest != []
    ensures !IsOperatorRoot(chain[0], base)
  {
    hide IsOperatorRoot;
    assert base + rest[..0] == base;
    assert !IsOperatorRoot(chain[0], base + rest[..0]);
  }

  lemma BelowIsTopmost(worktree: Node, p: Path, maxDepth: int)
    requires !IsOperatorRoot(worktree, [])
    ensures Below(worktree, [], p, maxDepth) <==> Topmost(worktree, p, maxDepth)
  {
    assert [] + p == p;
    assert forall i :: 0 <= i <= |p| ==> [] + p[..i] == p[..i];
    if Below(worktree, [], p, maxDepth) {
      var chain := BelowHasChain(worktree, [], p, maxDepth);
      assert forall i :: 0 <= i < |p| ==> !IsOperatorRoot(chain[i], p[..i]);
    }
    if Topmost(worktree, p, maxDepth) {
      var chain :| IsChain(chain, worktree, p) && IsOperatorRoot(chain[|p|], p)
                   && forall i :: 0 <= i < |p| ==> !IsOperatorRoot(chain[i], p[..i]);
      ChainIsBelow(chain, worktree, [], p, maxDepth);
    }
  }

  // ----- no root inside another

  /** The entries of every directory have names of their own, as in a file system. */
  ghost predicate DistinctNames(n: Node) {
    n.Dir? ==>
      && (forall i, j :: 0 <= i < |n.kids| && 0 <= j < |n.kids| && n.kids[i].name == n.kids[j].name ==> i == j)
      && forall k :: k in n.kids ==> DistinctNames(k)
  }

  lemma {:induction false} ChainIsUnique(a: seq<Node>, b: seq<Node>, n: Node, p: Path, q: Path)
    requires DistinctNames(n) && IsChain(a, n, p) && IsChain(b, n, q) && p <= q
    ensures a == b[..|p| + 1]
    decreases |p|
  {
    if p == [] {
      assert b[..1] == [n];
    } else {
      assert Step(a[0], a[1], p[0]) && Step(b[0], b[1], q[0]);
      var i :| 0 <= i < |n.kids| && n.kids[i] == a[1];
      var j :| 0 <= j < |n.kids| && n.kids[j] == b[1];
      assert i == j;
      ChainTail(a, n, p);
      ChainTail(b, n, q);
      ChainIsUnique(a[1..], b[1..], a[1], p[1..], q[1..]);
      assert b[1..][..|p|] == b[1..|p| + 1];
      assert a == [a[0]] + a[1..];
      assert b[..|p| + 1] == [b[0]] + b[1..|p| + 1];
    }
  }

  lemma ChainTail(chain: seq<Node>, n: Node, p: Path)
    requires IsChain(chain, n, p) && p != []
    ensures IsChain(chain[1..], chain[1], p[1..])
  {
    hide Step;
    var tail := chain[1..];
    forall i | 0 <= i < |p[1..]| ensures Step(tail[i], tail[i + 1], p[1..][i]) {
      assert Step(chain[i + 1], chain[i + 2], p[i + 1]);
    }
  }

  /** On the way to a path below an operator root there is that root. */
  lemma RootOnTheWay(a: seq<Node>, b: seq<Node>, worktree: Node, p: Path, q: Path)
    requires DistinctNames(worktree) && IsChain(a, worktree, p) && IsChain(b, worktree, q)
    requires IsOperatorRoot(a[|p|], p) && p < q
    ensures IsOperatorRoot(b[|p|], q[..|p|])
  {
    hide IsOperatorRoot, DistinctNames;
    ChainIsUnique(a, b, worktree, p, q);
    assert q[..|p|] == p;
    assert b[|p|] == b[..|p| + 1][|p|];
  }

  /** No topmost root lies inside another. */
  lemma RootsAreNotNested(worktree: Node, p: Path, q: Path, maxDepth: int)
    requires DistinctNames(worktree)
    requires Topmost(worktree, p, maxDepth) && Topmost(worktree, q, maxDepth)
    ensures p <= q ==> p == q
  {
    hide IsOperatorRoot, DistinctNames;
    if p < q {
      var a :| IsChain(a, worktree, p) && IsOperatorRoot(a[|p|], p)
               && forall i :: 0 <= i < |p| ==> !IsOperatorRoot(a[i], p[..i]);
      var b :| IsChain(b, worktree, q) && IsOperatorRoot(b[|q|], q)
               && forall i :: 0 <= i < |q| ==> !IsOperatorRoot(b[i], q[..i]);
      RootOnTheWay(a, b, worktree, p, q);
      assert false;
    }
  }

  /** Nothing at or under a denylisted directory of the worktree is an operator root, whatever it contains. */
  lemma DeniedIsNeverTopmost(worktree: Node, p: Path, maxDepth: int)
    requires exists i :: 0 <= i < |p| && LowerText(p[i]) in DENIED
    ensures !Topmost(worktree, p, maxDepth)
  {
  }
}
