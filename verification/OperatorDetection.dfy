/** The operators a change touches (engines/workspace/pr_workspace.py): from every changed file up to the
    nearest operator root, or across to the operators that share a common directory. */
module OperatorDetection {
  import opened Text
  import opened Lists
  import opened OperatorScan

  const SHARED := {"common", "shared"}

  /** The first entry of a name. */
  function KidNamed(kids: seq<Node>, name: string): Option<Node> {
    if kids == [] then None
    else if kids[0].name == name then Some(kids[0])
    else KidNamed(kids[1..], name)
  }

  function NodeAt(n: Node, p: Path): Option<Node>
    decreases p
  {
    if p == [] then Some(n)
    else if n.File? || KidNamed(n.kids, p[0]).None? then None
    else NodeAt(KidNamed(n.kids, p[0]).value, p[1..])
  }

  predicate IsDirAt(worktree: Node, p: Path) {
    NodeAt(worktree, p).Some? && NodeAt(worktree, p).value.Dir?
  }

  predicate IsRootAt(worktree: Node, p: Path) {
    NodeAt(worktree, p).Some? && IsOperatorRoot(NodeAt(worktree, p).value, p)
  }

  /** Where the climb from a changed path begins: the path when it is a directory, else its parent. */
  function Start(worktree: Node, file: Path): Path {
    if file == [] || IsDirAt(worktree, file) then file else file[..|file| - 1]
  }

  function Nearest(worktree: Node, p: Path): Option<Path> {
    if IsRootAt(worktree, p) then Some(p)
    else if p == [] then None
    else Nearest(worktree, p[..|p| - 1])
  }

  /** The place of the first shared directory name of a path. */
  function SharedIndex(file: Path, from: nat): (r: Option<nat>)
    requires from <= |file|
    ensures r.Some? ==> from <= r.value && r.value < |file|
    decreases |file| - from
  {
    if from == |file| then None
    else if LowerText(file[from]) in SHARED then Some(from)
    else SharedIndex(file, from + 1)
  }

  function Names(kids: seq<Node>): seq<string> {
    if kids == [] then [] else [kids[0].name] + Names(kids[1..])
  }

  predicate IsFamily(worktree: Node, parent: Path, name: string) {
    && IsDirAt(worktree, parent + [name])
    && LowerText(name) !in SHARED
    && IsRootAt(worktree, parent + [name])
  }

  function FamilyOf(worktree: Node, parent: Path, names: seq<string>): seq<Path> {
    if names == [] then []
    else (if IsFamily(worktree, parent, names[0]) then [parent + [names[0]]] else [])
         + FamilyOf(worktree, parent, names[1..])
  }

  /** The operators beside the first shared directory of a path, by name. */
  function Family(worktree: Node, file: Path): seq<Path> {
    var at := SharedIndex(file, 0);
    if at.None? then []
    else
      var parent := NodeAt(worktree, file[..at.value]);
      if parent.None? || parent.value.File? || !parent.value.readable then []
      else FamilyOf(worktree, file[..at.value], SortTexts(Names(parent.value.kids)))
  }

  /** What one changed path contributes. */
  function Contribution(worktree: Node, file: Path): seq<Path> {
    var hit := Nearest(worktree, Start(worktree, file));
    if hit.Some? then [hit.value] else Family(worktree, file)
  }

  function AddNew(roots: seq<Path>, more: seq<Path>): seq<Path>
    decreases more
  {
    if more == [] then roots
    else AddNew(if more[0] in roots then roots else roots + [more[0]], more[1..])
  }

  function DetectFrom(worktree: Node, roots: seq<Path>, files: seq<Path>): seq<Path>
    decreases files
  {
    if files == [] then roots
    else DetectFrom(worktree, AddNew(roots, Contribution(worktree, files[0])), files[1..])
  }

  function Detect(worktree: Node, files: seq<Path>): seq<Path> {
    var roots := DetectFrom(worktree, [], files);
    if roots == [] && IsRootAt(worktree, []) then [[]] else roots
  }

  // ----- the loops

  method Climb(worktree: Node, file: Path) returns (hit: Option<Path>)
    ensures hit == Nearest(worktree, Start(worktree, file))
  {
    hide IsRootAt;
    var cur := Start(worktree, file);
    while true
      invariant Nearest(worktree, cur) == Nearest(worktree, Start(worktree, file))
      decreases |cur|
    {
      if IsRootAt(worktree, cur) {
        return Some(cur);
      }
      if cur == [] {
        return None;
      }
      cur := cur[..|cur| - 1];
    }
  }

  method CollectFamily(worktree: Node, parent: Path, names: seq<string>) returns (family: seq<Path>)
    ensures family == FamilyOf(worktree, parent, names)
  {
    hide IsFamily;
    family := [];
    for i := 0 to |names|
      invariant family + FamilyOf(worktree, parent, names[i..]) == FamilyOf(worktree, parent, names)
    {
      assert names[i..][0] == names[i] && names[i..][1..] == names[i + 1..];
      if IsFamily(worktree, parent, names[i]) {
        family := family + [parent + [names[i]]];
      }
    }
    assert names[|names|..] == [];
  }

  method SharedFamily(worktree: Node, file: Path) returns (family: seq<Path>)
    ensures family == Family(worktree, file)
  {
    hide SortTexts, Names, NodeAt, IsFamily, SharedIndex;
    family := [];
    var at := SharedIndex(file, 0);
    if at.None? {
      return;
    }
    var parent := NodeAt(worktree, file[..at.value]);
    if parent.None? || parent.value.File? || !parent.value.readable {
      return;
    }
    family := CollectFamily(worktree, file[..at.value], SortTexts(Names(parent.value.kids)));
  }

  method AddRoots(roots0: seq<Path>, more: seq<Path>) returns (roots: seq<Path>)
    ensures roots == AddNew(roots0, more)
  {
    roots := roots0;
    for i := 0 to |more|
      invariant AddNew(roots, more[i..]) == AddNew(roots0, more)
    {
      assert more[i..][0] == more[i] && more[i..][1..] == more[i + 1..];
      if more[i] !in roots {
        roots := roots + [more[i]];
      }
    }
    assert more[|more|..] == [];
  }

  method DetectOperatorRoots(worktree: Node, files: seq<Path>) returns (roots: seq<Path>)
    ensures roots == Detect(worktree, files)
  {
    hide Nearest, Family, AddNew, IsRootAt;
    roots := [];
    for i := 0 to |files|
      invariant DetectFrom(worktree, roots, files[i..]) == DetectFrom(worktree, [], files)
    {
      assert files[i..][0] == files[i] && files[i..][1..] == files[i + 1..];
      var hit := Climb(worktree, files[i]);
      var more: seq<Path>;
      if hit.Some? {
        more := [hit.value];
      } else {
        more := SharedFamily(worktree, files[i]);
      }
      roots := AddRoots(roots, more);
    }
    assert files[|files|..] == [];
    if roots == [] && IsRootAt(worktree, []) {
      roots := [[]];
    }
  }

  // ----- what is detected

  /** An operator root on the way up from the changed path, with none between. */
  predicate IsNearest(worktree: Node, start: Path, p: Path) {
    p <= start && IsRootAt(worktree, p) && forall k :: |p| < k <= |start| ==> !IsRootAt(worktree, start[..k])
  }

  lemma {:induction false} NearestIff(worktree: Node, start: Path, p: Path)
    ensures Nearest(worktree, start) == Some(p) <==> IsNearest(worktree, start, p)
    ensures Nearest(worktree, start).None? <==> forall k :: 0 <= k <= |start| ==> !IsRootAt(worktree, start[..k])
    decreases |start|
  {
    hide IsRootAt;
    assert start[..|start|] == start;
    if IsRootAt(worktree, start) {
      assert p <= start && |p| == |start| ==> p == start;
      assert IsRootAt(worktree, start[..|start|]);
    } else if start != [] {
      var up := start[..|start| - 1];
      NearestIff(worktree, up, p);
      assert forall k :: 0 <= k <= |up| ==> up[..k] == start[..k];
      assert p <= start && p != start ==> p <= up;
    }
  }

  predicate NamedShared(name: string) {
    LowerText(name) == "common" || LowerText(name) == "shared"
  }

  /** An operator root beside the first directory of the changed path that is named for sharing. */
  predicate IsSharing(worktree: Node, file: Path, p: Path) {
    && p != []
    && |p| <= |file|
    && p[..|p| - 1] == file[..|p| - 1]
    && NamedShared(file[|p| - 1])
    && (forall i :: 0 <= i < |p| - 1 ==> !NamedShared(file[i]))
    && !NamedShared(p[|p| - 1])
    && IsRootAt(worktree, p)
    && NodeAt(worktree, p[..|p| - 1]).Some?
    && NodeAt(worktree, p[..|p| - 1]).value.Dir?
    && NodeAt(worktree, p[..|p| - 1]).value.readable
  }

  lemma {:induction false} SharedIndexIff(file: Path, from: nat)
    requires from <= |file|
    ensures var at := SharedIndex(file, from);
            && (at.Some? ==> LowerText(file[at.value]) in SHARED
                             && forall i :: from <= i < at.value ==> LowerText(file[i]) !in SHARED)
            && (at.None? ==> forall i :: from <= i < |file| ==> LowerText(file[i]) !in SHARED)
    decreases |file| - from
  {
    if from < |file| && LowerText(file[from]) !in SHARED {
      SharedIndexIff(file, from + 1);
    }
  }

  lemma {:induction false} FamilyMember(worktree: Node, parent: Path, names: seq<string>, p: Path)
    ensures p in FamilyOf(worktree, parent, names) <==>
            |p| == |parent| + 1 && parent < p && p[|parent|] in names && IsFamily(worktree, parent, p[|parent|])
  {
    hide IsFamily;
    if names == [] {
    } else {
      FamilyMember(worktree, parent, names[1..], p);
      assert parent < p && |p| == |parent| + 1 ==> p == parent + [p[|parent|]];
    }
  }

  lemma {:induction false} NamesMember(kids: seq<Node>, name: string)
    ensures name in Names(kids) <==> KidNamed(kids, name).Some?
  {
    if kids == [] {
    } else {
      NamesMember(kids[1..], name);
    }
  }

  /** Walking down a path is walking down to its parent and then to the entry of the last name. */
  lemma {:induction false} NodeAtLast(n: Node, parent: Path, name: string)
    ensures NodeAt(n, parent + [name]).Some? <==>
              && NodeAt(n, parent).Some? && NodeAt(n, parent).value.Dir?
              && KidNamed(NodeAt(n, parent).value.kids, name).Some?
    ensures NodeAt(n, parent + [name]).Some? ==>
              NodeAt(n, parent + [name]) == KidNamed(NodeAt(n, parent).value.kids, name)
    decreases |parent|
  {
    if parent == [] {
      assert [] + [name] == [name];
      assert [name][1..] == [];
    } else {
      assert (parent + [name])[1..] == parent[1..] + [name];
      if n.Dir? && KidNamed(n.kids, parent[0]).Some? {
        NodeAtLast(KidNamed(n.kids, parent[0]).value, parent[1..], name);
      }
    }
  }

  lemma RootIsDir(worktree: Node, p: Path)
    requires IsRootAt(worktree, p)
    ensures IsDirAt(worktree, p)
  {
  }

  lemma FamilyIff(worktree: Node, file: Path, p: Path)
    ensures p in Family(worktree, file) <==> IsSharing(worktree, file, p)
  {
    hide NodeAt, IsRootAt, LowerText, SharedIndex, SortTexts, SortedTexts, TextBelow, Names, FamilyOf, IsDirAt, KidNamed;
    SharedIndexIff(file, 0);
    var at := SharedIndex(file, 0);
    if at.Some? {
      var parent := file[..at.value];
      var node := NodeAt(worktree, parent);
      if node.Some? && node.value.Dir? && node.value.readable {
        SortTextsProperties(Names(node.value.kids));
        FamilyMember(worktree, parent, SortTexts(Names(node.value.kids)), p);
        if parent < p && |p| == |parent| + 1 {
          NamesMember(node.value.kids, p[|parent|]);
          assert p == parent + [p[|parent|]];
          NodeAtLast(worktree, parent, p[|parent|]);
          if IsRootAt(worktree, p) {
            RootIsDir(worktree, p);
            RootIsThere(worktree, p);
          }
        }
      }
      if IsSharing(worktree, file, p) {
        assert |p| - 1 == at.value;
        assert parent == p[..|p| - 1];
      }
    }
  }

  lemma RootIsThere(worktree: Node, p: Path)
    requires IsRootAt(worktree, p)
    ensures NodeAt(worktree, p).Some?
  {
  }

  lemma {:induction false} AddNewMember(roots: seq<Path>, more: seq<Path>, p: Path)
    ensures p in AddNew(roots, more) <==> p in roots || p in more
    decreases more
  {
    if more == [] {
    } else {
      AddNewMember(if more[0] in roots then roots else roots + [more[0]], more[1..], p);
    }
  }

  ghost predicate Distinct(roots: seq<Path>) {
    forall i, j :: 0 <= i < j < |roots| ==> roots[i] != roots[j]
  }

  lemma {:induction false} AddNewDistinct(roots: seq<Path>, more: seq<Path>)
    requires Distinct(roots)
    ensures Distinct(AddNew(roots, more)) && roots <= AddNew(roots, more)
    decreases more
  {
    if more == [] {
    } else {
      AddNewDistinct(if more[0] in roots then roots else roots + [more[0]], more[1..]);
    }
  }

  lemma {:induction false} DetectFromProperties(worktree: Node, roots: seq<Path>, files: seq<Path>)
    requires Distinct(roots)
    ensures Distinct(DetectFrom(worktree, roots, files)) && roots <= DetectFrom(worktree, roots, files)
    ensures forall p :: p in DetectFrom(worktree, roots, files) <==>
              p in roots || exists i :: 0 <= i < |files| && p in Contribution(worktree, files[i])
    decreases files
  {
    hide Contribution, AddNew;
    if files == [] {
    } else {
      var more := Contribution(worktree, files[0]);
      var next := AddNew(roots, more);
      AddNewDistinct(roots, more);
      DetectFromProperties(worktree, next, files[1..]);
      forall p
        ensures p in DetectFrom(worktree, roots, files) <==>
                p in roots || exists i :: 0 <= i < |files| && p in Contribution(worktree, files[i])
      {
        AddNewMember(roots, more, p);
        if i :| 0 <= i < |files| && p in Contribution(worktree, files[i]) {
          assert i > 0 ==> files[1..][i - 1] == files[i];
        }
        if i :| 0 <= i < |files[1..]| && p in Contribution(worktree, files[1..][i]) {
          assert files[i + 1] == files[1..][i];
        }
      }
    }
  }

  /** A changed path contributes its nearest operator root, or else the operators it shares code with. */
  predicate Touches(worktree: Node, file: Path, p: Path) {
    var start := Start(worktree, file);
    || IsNearest(worktree, start, p)
    || ((forall k :: 0 <= k <= |start| ==> !IsRootAt(worktree, start[..k])) && IsSharing(worktree, file, p))
  }

  lemma ContributionIff(worktree: Node, file: Path, p: Path)
    ensures p in Contribution(worktree, file) <==> Touches(worktree, file, p)
  {
    hide IsRootAt, Nearest, Family, IsSharing;
    var start := Start(worktree, file);
    NearestIff(worktree, start, p);
    FamilyIff(worktree, file, p);
    if Nearest(worktree, start).Some? {
      NearestIff(worktree, start, Nearest(worktree, start).value);
    }
  }

  /** Exactly the touched operator roots are detected, each once. The worktree itself, taken when nothing
      else is found, is taken only for a change without files: any file would have climbed to it. */
  lemma DetectIff(worktree: Node, files: seq<Path>)
    ensures var roots := Detect(worktree, files); forall i, j :: 0 <= i < j < |roots| ==> roots[i] != roots[j]
    ensures forall p :: p in Detect(worktree, files) <==>
              || (exists i :: 0 <= i < |files| && Touches(worktree, files[i], p))
              || (files == [] && p == [] && IsRootAt(worktree, []))
    ensures forall p :: p in Detect(worktree, files) ==> IsRootAt(worktree, p)
  {
    var found := DetectFrom(worktree, [], files);
    DetectFromProperties(worktree, [], files);
    hide Contribution, Touches, IsRootAt, DetectFrom;
    forall p ensures p in found <==> exists i :: 0 <= i < |files| && Touches(worktree, files[i], p) {
      if i :| 0 <= i < |files| && p in Contribution(worktree, files[i]) {
        ContributionIff(worktree, files[i], p);
      }
      if i :| 0 <= i < |files| && Touches(worktree, files[i], p) {
        ContributionIff(worktree, files[i], p);
      }
    }
    forall p, i | 0 <= i < |files| && Touches(worktree, files[i], p) ensures IsRootAt(worktree, p) {
      TouchedIsRoot(worktree, files[i], p);
    }
    if files != [] && IsRootAt(worktree, []) {
      var p := SomethingTouched(worktree, files[0]);
      assert p in found;
    }
  }

  lemma TouchedIsRoot(worktree: Node, file: Path, p: Path)
    requires Touches(worktree, file, p)
    ensures IsRootAt(worktree, p)
  {
    hide IsRootAt;
  }

  lemma SomethingTouched(worktree: Node, file: Path) returns (p: Path)
    requires IsRootAt(worktree, [])
    ensures Touches(worktree, file, p)
  {
    hide IsRootAt;
    var start := Start(worktree, file);
    assert start[..0] == [];
    NearestIff(worktree, start, []);
    p := Nearest(worktree, start).value;
    NearestIff(worktree, start, p);
  }

  // ----- detection and listing agree

  /** Every directory on the way is visible and can be listed. */
  predicate Visible(n: Node, p: Path)
    decreases p
  {
    p == [] || (&& n.Dir? && n.readable && (p[0] == "" || p[0][0] != '.')
                && KidNamed(n.kids, p[0]).Some? && KidNamed(n.kids, p[0]).value.Dir?
                && Visible(KidNamed(n.kids, p[0]).value, p[1..]))
  }

  lemma {:induction false} KidIsListed(kids: seq<Node>, name: string)
    ensures KidNamed(kids, name).Some? ==> KidNamed(kids, name).value in kids && KidNamed(kids, name).value.name == name
  {
    if kids == [] {
    } else {
      KidIsListed(kids[1..], name);
    }
  }

  /** The directories along a visible path. */
  lemma {:induction false} VisibleChain(n: Node, p: Path) returns (chain: seq<Node>)
    requires Visible(n, p)
    ensures IsChain(chain, n, p)
    ensures forall k :: 0 <= k <= |p| ==> NodeAt(n, p[..k]) == Some(chain[k])
    decreases p
  {
    if p == [] {
      chain := [n];
    } else {
      KidIsListed(n.kids, p[0]);
      var kid := KidNamed(n.kids, p[0]).value;
      var tail := VisibleChain(kid, p[1..]);
      chain := [n] + tail;
      ChainCons(n, tail, p);
      forall k | 0 <= k <= |p| ensures NodeAt(n, p[..k]) == Some(chain[k]) {
        if k > 0 {
          assert p[..k][1..] == p[1..][..k - 1];
          assert p[..k][0] == p[0];
        }
      }
    }
  }

  lemma FirstRootOnPath(worktree: Node, p: Path, from: nat) returns (k: nat)
    requires from <= |p| && IsRootAt(worktree, p)
    requires forall i :: 0 <= i < from ==> !IsRootAt(worktree, p[..i])
    ensures k <= |p| && IsRootAt(worktree, p[..k]) && forall i :: 0 <= i < k ==> !IsRootAt(worktree, p[..i])
    decreases |p| - from
  {
    hide IsRootAt;
    assert p[..|p|] == p;
    if IsRootAt(worktree, p[..from]) {
      k := from;
    } else {
      k := FirstRootOnPath(worktree, p, from + 1);
    }
  }

  /** A visible operator root within the bound lies at or under one that the listing finds. */
  lemma RootIsUnderTopmost(worktree: Node, p: Path, maxDepth: int) returns (top: Path)
    requires IsRootAt(worktree, p) && Visible(worktree, p) && |p| <= maxDepth
    ensures top <= p && Topmost(worktree, top, maxDepth)
  {
    var k := FirstRootOnPath(worktree, p, 0);
    var chain := VisibleChain(worktree, p);
    top := p[..k];
    hide IsOperatorRoot, Step;
    var short := chain[..k + 1];
    assert IsChain(short, worktree, top);
    assert IsOperatorRoot(short[|top|], top);
    forall i | 0 <= i < |top| ensures !IsOperatorRoot(short[i], top[..i]) {
      assert top[..i] == p[..i];
      assert !IsRootAt(worktree, p[..i]);
    }
  }
}
