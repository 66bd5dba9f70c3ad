/** Choosing the base of a pull request's head on a commit graph: `resolve_pr_base_sha`
    (engines/workspace/git_workspace.py) and `resolve_pin_base_sha` (pilot/ascendc_pilot/change_contract.py). */
module BaseSelection {
  import opened Text

  /** A repository as git answers about it: names to commits (the empty text when a name does not
      resolve), merge bases (empty when there is none), whether two commits differ, and the graph. */
  datatype Git = Git(
    rev: string -> string,
    mergeBase: (string, string) -> string,
    differs: (string, string) -> bool,
    parents: string -> seq<string>)

  ghost predicate Within(git: Git, a: string, b: string, steps: nat)
    decreases steps
  {
    a == b || (steps > 0 && exists i :: 0 <= i < |git.parents(b)| && Within(git, a, git.parents(b)[i], steps - 1))
  }

  /** `a` is `b` or lies in its history. */
  ghost predicate Ancestor(git: Git, a: string, b: string) {
    exists steps: nat :: Within(git, a, b, steps)
  }

  ghost predicate StrictAncestor(git: Git, a: string, b: string) {
    a != b && Ancestor(git, a, b)
  }

  /** Git's own promises: history has no cycle; a merge base is a best common ancestor and is missing only
      when there is none; and the parent names resolve to parents. */
  ghost predicate Honest(git: Git, head: string) {
    && (forall a, b :: Ancestor(git, a, b) && Ancestor(git, b, a) ==> a == b)
    && (forall a :: var m := git.mergeBase(a, head);
          m != "" ==> && Ancestor(git, m, a) && Ancestor(git, m, head)
                      && forall c :: Ancestor(git, c, a) && Ancestor(git, c, head) && Ancestor(git, m, c) ==> c == m)
    && (forall a, c :: Ancestor(git, c, a) && Ancestor(git, c, head) ==> git.mergeBase(a, head) != "")
    && (git.rev(head + "^") != "" ==> git.rev(head + "^") in git.parents(head))
    && (git.rev(head + "~1") != "" ==> git.rev(head + "~1") in git.parents(head))
  }

  const TRUNK_REFS := ["origin/HEAD", "origin/master", "origin/main", "master", "main"]

  // ----- the base of a pull request

  function RefNames(baseRef: string): seq<string> {
    var br := Trim(Python, baseRef);
    (if br != "" then ["origin/" + br, br] else []) + TRUNK_REFS
  }

  function Resolved(git: Git, head: string, names: seq<string>): seq<string> {
    if names == [] then []
    else
      var sha := git.rev(names[0]);
      (if sha != "" && sha != head then [sha] else []) + Resolved(git, head, names[1..])
  }

  /** The commits that are considered, in order. */
  function Candidates(git: Git, head: string, providerBase: string, baseRef: string): seq<string> {
    var pb := Trim(Python, providerBase);
    (if pb != "" && pb != head then [pb] else []) + Resolved(git, head, RefNames(baseRef))
  }

  /** What one candidate decides: the empty text passes on to the next. */
  function Verdict(git: Git, head: string, cand: string): string {
    var mb := git.mergeBase(cand, head);
    if mb != "" && mb != head then mb
    else if mb == cand then cand
    else if git.differs(cand, head) then cand
    else ""
  }

  function FirstVerdict(git: Git, head: string, cands: seq<string>): string {
    if cands == [] then ""
    else if Verdict(git, head, cands[0]) != "" then Verdict(git, head, cands[0])
    else FirstVerdict(git, head, cands[1..])
  }

  function ParentOf(git: Git, head: string): string {
    var parent := if git.rev(head + "^") != "" then git.rev(head + "^") else git.rev(head + "~1");
    if parent != head then parent else ""
  }

  function PrBase(git: Git, headSha: string, providerBase: string, baseRef: string): string {
    var head := Trim(Python, headSha);
    if head == "" then ""
    else
      var chosen := FirstVerdict(git, head, Candidates(git, head, providerBase, baseRef));
      if chosen != "" then chosen else ParentOf(git, head)
  }

  lemma {:induction false} ResolvedProperties(git: Git, head: string, names: seq<string>)
    ensures forall c :: c in Resolved(git, head, names) ==> c != "" && c != head
  {
    if names == [] {
    } else {
      ResolvedProperties(git, head, names[1..]);
    }
  }

  lemma CandidatesProperties(git: Git, head: string, providerBase: string, baseRef: string)
    ensures forall c :: c in Candidates(git, head, providerBase, baseRef) ==> c != "" && c != head
  {
    ResolvedProperties(git, head, RefNames(baseRef));
  }

  method CandidateList(git: Git, head: string, providerBase: string, baseRef: string) returns (ordered: seq<string>)
    ensures ordered == Candidates(git, head, providerBase, baseRef)
  {
    hide Trim, RefNames;
    ordered := [];
    var pb := Trim(Python, providerBase);
    if pb != "" && pb != head {
      ordered := ordered + [pb];
    }
    var refs := RefNames(baseRef);
    for i := 0 to |refs|
      invariant ordered + Resolved(git, head, refs[i..]) == Candidates(git, head, providerBase, baseRef)
    {
      var sha := git.rev(refs[i]);
      assert refs[i..][1..] == refs[i + 1..];
      if sha != "" && sha != head {
        ordered := ordered + [sha];
      }
    }
  }

  /** The loop skips candidates it has seen; that never changes the answer. */
  method ResolvePrBase(git: Git, headSha: string, providerBase: string, baseRef: string) returns (base: string)
    ensures base == PrBase(git, headSha, providerBase, baseRef)
  {
    var head := Trim(Python, headSha);
    if head == "" {
      return "";
    }
    var ordered := CandidateList(git, head, providerBase, baseRef);
    CandidatesProperties(git, head, providerBase, baseRef);
    hide Candidates, Trim;
    var seen: set<string> := {};
    for i := 0 to |ordered|
      invariant FirstVerdict(git, head, ordered) == FirstVerdict(git, head, ordered[i..])
      invariant forall c :: c in seen ==> Verdict(git, head, c) == ""
    {
      var cand := ordered[i];
      assert cand in ordered && ordered[i..][1..] == ordered[i + 1..];
      if cand == "" || cand == head || cand in seen {
        continue;
      }
      seen := seen + {cand};
      var mb := git.mergeBase(cand, head);
      if mb != "" && mb != head {
        return mb;
      }
      if mb == cand {
        return cand;
      }
      if git.differs(cand, head) {
        return cand;
      }
    }
    var parent := if git.rev(head + "^") != "" then git.rev(head + "^") else git.rev(head + "~1");
    if parent != "" && parent != head {
      return parent;
    }
    base := "";
  }

  /** The order in which commits are considered: the provider's base, the base branch at the remote, the local one, and then
      the usual names; without a base branch only the usual names follow. */
  lemma CandidatesInOrder(git: Git, head: string, providerBase: string, baseRef: string)
    ensures var br := Trim(Python, baseRef);
            var pb := Trim(Python, providerBase);
            var trunk := Named(git, head, "origin/HEAD") + Named(git, head, "origin/master") + Named(git, head, "origin/main")
                         + Named(git, head, "master") + Named(git, head, "main");
            Candidates(git, head, providerBase, baseRef)
            == (if pb != "" && pb != head then [pb] else [])
               + (if br != "" then Named(git, head, "origin/" + br) + Named(git, head, br) else []) + trunk
  {
    var br := Trim(Python, baseRef);
    hide Trim;
    if br != "" {
      ResolvedConcat(git, head, ["origin/" + br, br], TRUNK_REFS);
      ResolvedTwo(git, head, "origin/" + br, br);
    } else {
      assert [] + TRUNK_REFS == TRUNK_REFS;
    }
    TrunkResolved(git, head);
  }

  /** What a name stands for among the candidates. */
  function Named(git: Git, head: string, name: string): seq<string> {
    if git.rev(name) != "" && git.rev(name) != head then [git.rev(name)] else []
  }

  lemma ResolvedStep(git: Git, head: string, names: seq<string>)
    requires names != []
    ensures Resolved(git, head, names) == Named(git, head, names[0]) + Resolved(git, head, names[1..])
  {
  }

  lemma ResolvedNone(git: Git, head: string)
    ensures Resolved(git, head, []) == []
  {
  }

  lemma {:induction false} ResolvedConcat(git: Git, head: string, a: seq<string>, b: seq<string>)
    ensures Resolved(git, head, a + b) == Resolved(git, head, a) + Resolved(git, head, b)
  {
    hide Resolved, Named;
    if a == [] {
      assert a + b == b;
      ResolvedNone(git, head);
    } else {
      ResolvedConcat(git, head, a[1..], b);
      ResolvedStep(git, head, a);
      ResolvedStep(git, head, a + b);
      assert (a + b)[1..] == a[1..] + b;
    }
  }

  lemma ResolvedOne(git: Git, head: string, a: string)
    ensures Resolved(git, head, [a]) == Named(git, head, a)
  {
  }

  lemma ResolvedTwo(git: Git, head: string, a: string, b: string)
    ensures Resolved(git, head, [a, b]) == Named(git, head, a) + Named(git, head, b)
  {
    assert [a, b] == [a] + [b];
    ResolvedConcat(git, head, [a], [b]);
    ResolvedOne(git, head, a);
    ResolvedOne(git, head, b);
  }

  lemma TrunkResolved(git: Git, head: string)
    ensures Resolved(git, head, TRUNK_REFS)
         == Named(git, head, "origin/HEAD") + Named(git, head, "origin/master") + Named(git, head, "origin/main")
            + Named(git, head, "master") + Named(git, head, "main")
  {
    hide Resolved;
    assert TRUNK_REFS == ["origin/HEAD", "origin/master"] + (["origin/main"] + ["master", "main"]);
    ResolvedConcat(git, head, ["origin/HEAD", "origin/master"], ["origin/main"] + ["master", "main"]);
    ResolvedConcat(git, head, ["origin/main"], ["master", "main"]);
    ResolvedTwo(git, head, "origin/HEAD", "origin/master");
    ResolvedOne(git, head, "origin/main");
    ResolvedTwo(git, head, "master", "main");
  }

  /** A candidate decides when it has a merge base with the head that is not the head, or differs from the head. */
  predicate Decides(git: Git, head: string, cand: string) {
    var mb := git.mergeBase(cand, head);
    (mb != "" && mb != head) || git.differs(cand, head)
  }

  /** The base comes from the first candidate that decides: its merge base with the head if that is not the head, else the
      candidate itself; when none decides it is the head's parent, unless that is the head, or nothing. */
  lemma FirstDecides(git: Git, headSha: string, providerBase: string, baseRef: string)
    requires Trim(Python, headSha) != ""
    ensures var head := Trim(Python, headSha);
            var cands := Candidates(git, head, providerBase, baseRef);
            var base := PrBase(git, headSha, providerBase, baseRef);
            && (forall i :: 0 <= i < |cands| && Decides(git, head, cands[i])
                            && (forall j :: 0 <= j < i ==> !Decides(git, head, cands[j])) ==>
                  base == var mb := git.mergeBase(cands[i], head); if mb != "" && mb != head then mb else cands[i])
            && ((forall i :: 0 <= i < |cands| ==> !Decides(git, head, cands[i])) ==>
                  base == var up := if git.rev(head + "^") != "" then git.rev(head + "^") else git.rev(head + "~1");
                          if up == head then "" else up)
  {
    var head := Trim(Python, headSha);
    var cands := Candidates(git, head, providerBase, baseRef);
    CandidatesProperties(git, head, providerBase, baseRef);
    hide Trim, Candidates;
    forall i | 0 <= i < |cands| && Decides(git, head, cands[i]) && (forall j :: 0 <= j < i ==> !Decides(git, head, cands[j]))
      ensures FirstVerdict(git, head, cands)
           == var mb := git.mergeBase(cands[i], head); if mb != "" && mb != head then mb else cands[i]
      ensures FirstVerdict(git, head, cands) != ""
    {
      FirstVerdictAt(git, head, cands, i);
    }
    if forall i :: 0 <= i < |cands| ==> !Decides(git, head, cands[i]) {
      NoneDecides(git, head, cands);
    }
  }

  lemma {:induction false} FirstVerdictAt(git: Git, head: string, cands: seq<string>, i: nat)
    requires i < |cands| && Decides(git, head, cands[i]) && forall j :: 0 <= j < i ==> !Decides(git, head, cands[j])
    requires forall c :: c in cands ==> c != "" && c != head
    ensures FirstVerdict(git, head, cands)
         == var mb := git.mergeBase(cands[i], head); if mb != "" && mb != head then mb else cands[i]
    ensures FirstVerdict(git, head, cands) != ""
  {
    assert cands[0] in cands && cands[i] in cands;
    if i > 0 {
      assert !Decides(git, head, cands[0]);
      assert forall j :: 0 <= j < |cands[1..]| ==> cands[1..][j] == cands[j + 1];
      assert forall d :: d in cands[1..] ==> d in cands;
      FirstVerdictAt(git, head, cands[1..], i - 1);
    }
  }

  lemma {:induction false} NoneDecides(git: Git, head: string, cands: seq<string>)
    requires forall j :: 0 <= j < |cands| ==> !Decides(git, head, cands[j])
    requires forall c :: c in cands ==> c != "" && c != head
    ensures FirstVerdict(git, head, cands) == ""
  {
    if cands == [] {
    } else {
      assert cands[0] in cands && !Decides(git, head, cands[0]);
      assert forall j :: 0 <= j < |cands[1..]| ==> cands[1..][j] == cands[j + 1];
      assert forall d :: d in cands[1..] ==> d in cands;
      NoneDecides(git, head, cands[1..]);
    }
  }

  /** The base is never the head. */
  lemma PrBaseIsNotHead(git: Git, headSha: string, providerBase: string, baseRef: string)
    ensures var head := Trim(Python, headSha);
            head != "" ==> PrBase(git, headSha, providerBase, baseRef) != head
  {
    var head := Trim(Python, headSha);
    CandidatesProperties(git, head, providerBase, baseRef);
    if head != "" {
      VerdictIsNotHead(git, head, Candidates(git, head, providerBase, baseRef));
    }
  }

  lemma {:induction false} VerdictIsNotHead(git: Git, head: string, cands: seq<string>)
    requires head != "" && forall c :: c in cands ==> c != head
    ensures FirstVerdict(git, head, cands) != head
  {
    if cands == [] {
    } else {
      assert cands[0] in cands && forall d :: d in cands[1..] ==> d in cands;
      VerdictIsNotHead(git, head, cands[1..]);
    }
  }

  /** The verdict without the test for a candidate that is its own merge base. */
  function ShortVerdict(git: Git, head: string, cand: string): string {
    var mb := git.mergeBase(cand, head);
    if mb != "" && mb != head then mb
    else if git.differs(cand, head) then cand
    else ""
  }

  function FirstShortVerdict(git: Git, head: string, cands: seq<string>): string {
    if cands == [] then ""
    else if ShortVerdict(git, head, cands[0]) != "" then ShortVerdict(git, head, cands[0])
    else FirstShortVerdict(git, head, cands[1..])
  }

  lemma {:induction false} SameWithoutTest(git: Git, head: string, cands: seq<string>)
    requires forall c :: c in cands ==> c != "" && c != head
    ensures FirstVerdict(git, head, cands) == FirstShortVerdict(git, head, cands)
  {
    if cands == [] {
    } else {
      assert cands[0] in cands && forall d :: d in cands[1..] ==> d in cands;
      SameWithoutTest(git, head, cands[1..]);
    }
  }

  /** Removing the test for a candidate that is its own merge base changes no base: a candidate is neither
      empty nor the head, so the test before it has already returned such a one. */
  lemma OwnMergeBaseIsDecidedBefore(git: Git, headSha: string, providerBase: string, baseRef: string)
    ensures var head := Trim(Python, headSha);
            var chosen := FirstShortVerdict(git, head, Candidates(git, head, providerBase, baseRef));
            PrBase(git, headSha, providerBase, baseRef)
            == if head == "" then "" else if chosen != "" then chosen else ParentOf(git, head)
  {
    var head := Trim(Python, headSha);
    CandidatesProperties(git, head, providerBase, baseRef);
    SameWithoutTest(git, head, Candidates(git, head, providerBase, baseRef));
  }

  /** A candidate that is chosen itself although its history and the head's do not part below the head. */
  predicate Misleads(git: Git, head: string, cand: string) {
    git.mergeBase(cand, head) in {"", head} && git.differs(cand, head)
  }

  predicate Passes(git: Git, head: string, cand: string) {
    git.mergeBase(cand, head) in {"", head} && !git.differs(cand, head)
  }

  /** The first candidate that does not pass misleads. */
  predicate FirstMisleads(git: Git, head: string, cands: seq<string>) {
    && cands != []
    && (Misleads(git, head, cands[0]) || (Passes(git, head, cands[0]) && FirstMisleads(git, head, cands[1..])))
  }

  lemma ParentIsAncestor(git: Git, head: string, parent: string)
    requires parent in git.parents(head)
    ensures Ancestor(git, parent, head)
  {
    var i :| 0 <= i < |git.parents(head)| && git.parents(head)[i] == parent;
    assert Within(git, parent, git.parents(head)[i], 0);
    assert Within(git, parent, head, 1);
  }

  lemma SelfIsAncestor(git: Git, a: string)
    ensures Ancestor(git, a, a)
  {
    assert Within(git, a, a, 0);
  }

  /** A candidate that misleads is no ancestor of the head. */
  lemma MisleadingIsNoAncestor(git: Git, head: string, cand: string)
    requires Honest(git, head) && cand != head && Misleads(git, head, cand)
    ensures !Ancestor(git, cand, head)
  {
    hide Ancestor;
    SelfIsAncestor(git, cand);
    if git.mergeBase(cand, head) != "" {
      assert Ancestor(git, head, cand);
    }
  }

  lemma {:induction false} FirstVerdictIff(git: Git, head: string, cands: seq<string>)
    requires Honest(git, head) && head != ""
    requires forall c :: c in cands ==> c != "" && c != head
    ensures var v := FirstVerdict(git, head, cands);
            v == "" || StrictAncestor(git, v, head) <==> !FirstMisleads(git, head, cands)
  {
    hide Ancestor;
    if cands == [] {
    } else {
      var c := cands[0];
      assert c in cands && forall d :: d in cands[1..] ==> d in cands;
      FirstVerdictIff(git, head, cands[1..]);
      if Misleads(git, head, c) {
        MisleadingIsNoAncestor(git, head, c);
      }
    }
  }

  /** The base is empty or a strict ancestor of the head exactly when the first candidate that does not
      pass is related to the head and does not contain it. */
  lemma PrBaseIsAncestorIff(git: Git, headSha: string, providerBase: string, baseRef: string)
    requires Honest(git, Trim(Python, headSha)) && Trim(Python, headSha) != ""
    ensures var head := Trim(Python, headSha);
            var base := PrBase(git, headSha, providerBase, baseRef);
            base == "" || StrictAncestor(git, base, head)
            <==> !FirstMisleads(git, head, Candidates(git, head, providerBase, baseRef))
  {
    var head := Trim(Python, headSha);
    var cands := Candidates(git, head, providerBase, baseRef);
    CandidatesProperties(git, head, providerBase, baseRef);
    FirstVerdictIff(git, head, cands);
    if FirstVerdict(git, head, cands) == "" && ParentOf(git, head) != "" {
      ParentIsAncestor(git, head, ParentOf(git, head));
    }
  }

  /** When every candidate shares history with the head and none contains it, the base is a strict
      ancestor of the head or there is none. */
  lemma SharedHistoryGivesAncestor(git: Git, headSha: string, providerBase: string, baseRef: string)
    requires Honest(git, Trim(Python, headSha)) && Trim(Python, headSha) != ""
    requires forall c :: c in Candidates(git, Trim(Python, headSha), providerBase, baseRef) ==>
               && (exists a :: Ancestor(git, a, c) && Ancestor(git, a, Trim(Python, headSha)))
               && !Ancestor(git, Trim(Python, headSha), c)
    ensures var base := PrBase(git, headSha, providerBase, baseRef);
            base == "" || StrictAncestor(git, base, Trim(Python, headSha))
  {
    var head := Trim(Python, headSha);
    hide Ancestor;
    PrBaseIsAncestorIff(git, headSha, providerBase, baseRef);
    var cands := Candidates(git, head, providerBase, baseRef);
    forall c | c in cands ensures !Misleads(git, head, c) {
      var a :| Ancestor(git, a, c) && Ancestor(git, a, head);
      assert git.mergeBase(c, head) != "";
    }
    NoneMisleads(git, head, cands);
  }

  lemma {:induction false} NoneMisleads(git: Git, head: string, cands: seq<string>)
    requires forall c :: c in cands ==> !Misleads(git, head, c)
    ensures !FirstMisleads(git, head, cands)
  {
    if cands == [] {
    } else {
      assert cands[0] in cands && forall d :: d in cands[1..] ==> d in cands;
      NoneMisleads(git, head, cands[1..]);
    }
  }

  /** A head that its first candidate already contains, as after a merge, gets that later commit as base. */
  lemma MergedHeadGivesDescendant(git: Git, headSha: string, providerBase: string, baseRef: string)
    requires Honest(git, Trim(Python, headSha)) && Trim(Python, headSha) != ""
    requires Candidates(git, Trim(Python, headSha), providerBase, baseRef) != []
    requires var c := Candidates(git, Trim(Python, headSha), providerBase, baseRef)[0];
             Ancestor(git, Trim(Python, headSha), c) && git.differs(c, Trim(Python, headSha))
    ensures var c := Candidates(git, Trim(Python, headSha), providerBase, baseRef)[0];
            PrBase(git, headSha, providerBase, baseRef) == c && StrictAncestor(git, Trim(Python, headSha), c)
  {
    var head := Trim(Python, headSha);
    var cands := Candidates(git, head, providerBase, baseRef);
    CandidatesProperties(git, head, providerBase, baseRef);
    hide Ancestor;
    var c := cands[0];
    assert c in cands;
    SelfIsAncestor(git, head);
    var m := git.mergeBase(c, head);
    assert m != "";
    assert Ancestor(git, m, head);
    assert m == head;
  }

  // ----- the base that a pin compares with

  function AppendNew(tried: seq<string>, head: string, c: string): seq<string> {
    if c != "" && c != head && c !in tried then tried + [c] else tried
  }

  function TryNames(git: Git, head: string, names: seq<string>, tried: seq<string>): seq<string>
    decreases names
  {
    if names == [] then tried
    else
      var cand := git.rev(names[0]);
      var mb := if cand != "" then git.mergeBase(cand, head) else "";
      TryNames(git, head, names[1..], AppendNew(AppendNew(tried, head, cand), head, mb))
  }

  function PinNames(head: string): seq<string> {
    TRUNK_REFS + [head + "~1", head + "^"]
  }

  function Tried(git: Git, head: string, claimed: string): seq<string> {
    TryNames(git, head, PinNames(head),
             if claimed != "" && claimed != head then AppendNew([claimed], head, git.mergeBase(claimed, head)) else [])
  }

  function FirstDiffering(git: Git, head: string, tried: seq<string>): string {
    if tried == [] then ""
    else if tried[0] != "" && tried[0] != head && git.differs(tried[0], head) then tried[0]
    else FirstDiffering(git, head, tried[1..])
  }

  function PinBase(git: Git, headSha: string, claimedBase: string): string {
    var head := Trim(Python, headSha);
    if head == "" then "" else FirstDiffering(git, head, Tried(git, head, Trim(Python, claimedBase)))
  }

  method ResolvePinBase(git: Git, headSha: string, claimedBase: string) returns (base: string)
    ensures base == PinBase(git, headSha, claimedBase)
  {
    var head := Trim(Python, headSha);
    if head == "" {
      return "";
    }
    var claimed := Trim(Python, claimedBase);
    var tried: seq<string> := [];
    if claimed != "" && claimed != head {
      tried := [claimed];
      var mb := git.mergeBase(claimed, head);
      if mb != "" && mb != head && mb !in tried {
        tried := tried + [mb];
      }
    }
    var names := PinNames(head);
    for i := 0 to |names|
      invariant TryNames(git, head, names[i..], tried) == Tried(git, head, claimed)
    {
      var cand := git.rev(names[i]);
      ghost var before := tried;
      if cand != "" && cand != head && cand !in tried {
        tried := tried + [cand];
      }
      var mb := if cand != "" then git.mergeBase(cand, head) else "";
      if mb != "" && mb != head && mb !in tried {
        tried := tried + [mb];
      }
      assert names[i..][1..] == names[i + 1..];
      assert tried == AppendNew(AppendNew(before, head, cand), head, mb);
    }
    for i := 0 to |tried|
      invariant FirstDiffering(git, head, tried[i..]) == FirstDiffering(git, head, tried)
    {
      if tried[i] != "" && tried[i] != head && git.differs(tried[i], head) {
        return tried[i];
      }
    }
    base := "";
  }

  /** A name gives a base to try: what it resolves to, or that commit's merge base with the head. */
  predicate Offers(git: Git, head: string, name: string, c: string) {
    git.rev(name) != "" && (c == git.rev(name) || c == git.mergeBase(git.rev(name), head))
  }

  lemma {:induction false} TryNamesMember(git: Git, head: string, names: seq<string>, tried: seq<string>, c: string)
    ensures c in TryNames(git, head, names, tried) <==>
            c in tried || (c != "" && c != head && exists i :: 0 <= i < |names| && Offers(git, head, names[i], c))
    ensures tried <= TryNames(git, head, names, tried)
    decreases names
  {
    if names == [] {
    } else {
      var cand := git.rev(names[0]);
      var mb := if cand != "" then git.mergeBase(cand, head) else "";
      var more := AppendNew(AppendNew(tried, head, cand), head, mb);
      TryNamesMember(git, head, names[1..], more, c);
      if i :| 0 <= i < |names| && Offers(git, head, names[i], c) {
        assert i > 0 ==> names[1..][i - 1] == names[i];
      }
      if i :| 0 <= i < |names[1..]| && Offers(git, head, names[1..][i], c) {
        assert names[i + 1] == names[1..][i];
      }
      if c in more && c !in tried {
        assert Offers(git, head, names[0], c);
      }
    }
  }

  lemma {:induction false} FirstDifferingIff(git: Git, head: string, tried: seq<string>)
    ensures var base := FirstDiffering(git, head, tried);
            && (base != "" ==> base in tried && base != head && git.differs(base, head))
            && (base == "" <==> forall c :: c in tried && c != "" && c != head ==> !git.differs(c, head))
  {
    if tried == [] {
    } else {
      FirstDifferingIff(git, head, tried[1..]);
    }
  }

  /** The pin's base differs from the head in content, and it is missing only when every base on offer
      fails: the claimed one, the usual names, the head's parent, and their merge bases with the head.
      A claimed base with a difference is taken as it is. */
  lemma PinBaseIff(git: Git, headSha: string, claimedBase: string)
    ensures var head, claimed := Trim(Python, headSha), Trim(Python, claimedBase);
            var base := PinBase(git, headSha, claimedBase);
            && (base != "" ==> head != "" && base != head && git.differs(base, head))
            && (base == "" <==> head == "" || forall c ::
                  c != "" && c != head
                  && (c == claimed
                      || (claimed != "" && claimed != head && c == git.mergeBase(claimed, head))
                      || exists i :: 0 <= i < |PinNames(head)| && Offers(git, head, PinNames(head)[i], c))
                  ==> !git.differs(c, head))
            && (head != "" && claimed != "" && claimed != head && git.differs(claimed, head) ==> base == claimed)
  {
    var head, claimed := Trim(Python, headSha), Trim(Python, claimedBase);
    if head != "" {
      var start := if claimed != "" && claimed != head then AppendNew([claimed], head, git.mergeBase(claimed, head)) else [];
      FirstDifferingIff(git, head, Tried(git, head, claimed));
      hide Trim;
      forall c ensures c in Tried(git, head, claimed) <==>
                       c in start || (c != "" && c != head && exists i :: 0 <= i < |PinNames(head)| && Offers(git, head, PinNames(head)[i], c))
      {
        TryNamesMember(git, head, PinNames(head), start, c);
      }
      TryNamesMember(git, head, PinNames(head), start, claimed);
      hide TryNames, PinNames, Offers;
    }
  }

  /** The pin's base is the first one tried that differs from the head in content; a claimed base comes first, then its
      merge base with the head, and then, for each name in order, the commit and its merge base. */
  lemma PinBaseIsFirst(git: Git, headSha: string, claimedBase: string, i: nat)
    requires Trim(Python, headSha) != ""
    requires var tried := Tried(git, Trim(Python, headSha), Trim(Python, claimedBase));
             && i < |tried| && git.differs(tried[i], Trim(Python, headSha))
             && forall j :: 0 <= j < i ==> !git.differs(tried[j], Trim(Python, headSha))
    ensures PinBase(git, headSha, claimedBase) == Tried(git, Trim(Python, headSha), Trim(Python, claimedBase))[i]
  {
    var head, claimed := Trim(Python, headSha), Trim(Python, claimedBase);
    TriedAreUsable(git, head, claimed);
    hide Trim, Tried;
    FirstDifferingAt(git, head, Tried(git, head, claimed), i);
  }

  lemma {:induction false} FirstDifferingAt(git: Git, head: string, tried: seq<string>, i: nat)
    requires i < |tried| && git.differs(tried[i], head) && forall j :: 0 <= j < i ==> !git.differs(tried[j], head)
    requires forall c :: c in tried ==> c != "" && c != head
    ensures FirstDiffering(git, head, tried) == tried[i]
  {
    assert tried[i] in tried;
    if i > 0 {
      assert forall j :: 0 <= j < |tried[1..]| ==> tried[1..][j] == tried[j + 1];
      assert forall d :: d in tried[1..] ==> d in tried;
      FirstDifferingAt(git, head, tried[1..], i - 1);
    }
  }

  lemma TriedAreUsable(git: Git, head: string, claimed: string)
    ensures forall c :: c in Tried(git, head, claimed) ==> c != "" && c != head
    ensures claimed != "" && claimed != head ==> Tried(git, head, claimed) != [] && Tried(git, head, claimed)[0] == claimed
    ensures claimed != "" && claimed != head && git.mergeBase(claimed, head) !in {"", head, claimed} ==>
              |Tried(git, head, claimed)| > 1 && Tried(git, head, claimed)[1] == git.mergeBase(claimed, head)
  {
    var start := if claimed != "" && claimed != head then AppendNew([claimed], head, git.mergeBase(claimed, head)) else [];
    hide TryNames, PinNames, Offers;
    forall c ensures c in Tried(git, head, claimed) ==> c != "" && c != head {
      TryNamesMember(git, head, PinNames(head), start, c);
    }
    TryNamesMember(git, head, PinNames(head), start, "");
    assert start <= Tried(git, head, claimed);
  }

  /** The names tried after a claimed base, in order. */
  lemma PinNamesAre(head: string)
    ensures PinNames(head)
         == ["origin/HEAD", "origin/master", "origin/main", "master", "main", head + "~1", head + "^"]
  {
  }

  /** One name after another: each appends its commit and then its merge base, unless they are unusable or there. */
  lemma TriedInOrder(git: Git, head: string, names: seq<string>, name: string, tried: seq<string>)
    ensures var before := TryNames(git, head, names, tried);
            var cand := git.rev(name);
            var mb := if cand != "" then git.mergeBase(cand, head) else "";
            var one := if cand != "" && cand != head && cand !in before then before + [cand] else before;
            TryNames(git, head, names + [name], tried)
            == if mb != "" && mb != head && mb !in one then one + [mb] else one
    decreases |names|
  {
    if names == [] {
      assert names + [name] == [name];
      assert TryNames(git, head, [name][1..], AppendNew(AppendNew(tried, head, git.rev(name)), head,
                      if git.rev(name) != "" then git.mergeBase(git.rev(name), head) else ""))
          == AppendNew(AppendNew(tried, head, git.rev(name)), head,
                       if git.rev(name) != "" then git.mergeBase(git.rev(name), head) else "");
    } else {
      var cand := git.rev(names[0]);
      var mb := if cand != "" then git.mergeBase(cand, head) else "";
      assert (names + [name])[1..] == names[1..] + [name];
      TriedInOrder(git, head, names[1..], name, AppendNew(AppendNew(tried, head, cand), head, mb));
    }
  }
}
