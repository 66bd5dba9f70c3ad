/** Pinning the change of a pull request (pilot/ascendc_pilot/change_contract.py): the promotion of a
    clone receipt to a change contract, and the gates that read the contract. */
module ChangePin {
  import opened Text
  import opened Lists
  import opened BaseSelection
  import opened HunkScope

  const CONTRACT_SCHEMA := "tg-change-contract/v2"
  const PR_REGRESSION := "pr_regression"
  const COVERAGE := "implementation_coverage"

  datatype Receipt = Receipt(kind: string, files: seq<string>, base: string, head: string, worktree: string)

  datatype Contract = Contract(
    schema: string, kind: string, files: seq<string>, hunks: seq<Hunk>,
    base: string, head: string, enumerate: string)

  /** The control files of an operator project and the source kind of the user's goal. */
  datatype Project = Project(receipt: Option<Receipt>, contract: Option<Contract>, goalKind: string)

  /** The repository around a path: its HEAD, what git says, and the hunks between two commits. */
  datatype Site = Site(head: string, git: Git, hunks: (string, string) -> seq<Hunk>)

  datatype Captured = Captured(hunks: seq<Hunk>, base: string, head: string) | HeadMismatch | HunksRequired

  datatype Pinned =
    | Ok(contract: Contract)
    | KindInvalid
    | SourceForbidden
    | FactsMissing
    | PinHeadMismatch
    | PinHunksRequired

  datatype Gate = Pass | KindConflict | ChangeRequired | PinFailed(why: Pinned)

  function KindText(kind: string): string {
    LowerText(Trim(Python, kind))
  }

  predicate IsPr(kind: string) {
    KindText(kind) in {"pull_request", "pr"}
  }

  /** The base to compare with: the claimed one, or one that git can offer. */
  function UsableBase(site: Site, base: string, head: string): string {
    var b := Trim(Python, base);
    if b == "" || b == head then PinBase(site.git, head, b) else b
  }

  function Capture(site: Site, base: string, headSha: string): Captured {
    var head := Trim(Python, headSha);
    if head == "" || site.head != head then HeadMismatch
    else
      var first := UsableBase(site, base, head);
      if first == "" then HunksRequired
      else if site.hunks(first, head) != [] then Captured(site.hunks(first, head), first, head)
      else
        var second := PinBase(site.git, head, first);
        if second != "" && second != first && site.hunks(second, head) != [] then
          Captured(site.hunks(second, head), second, head)
        else HunksRequired
  }

  function WorktreeOf(r: Receipt, root: string): string {
    OrElse(r.worktree, root)
  }

  /** The receipt after its base and head were corrected. */
  function Corrected(r: Receipt, files: seq<string>, base: string, head: string, root: string): Receipt {
    Receipt(Trim(Python, r.kind), files, base, head, Trim(Python, WorktreeOf(r, root)))
  }

  function PrContract(files: seq<string>, hunks: seq<Hunk>, base: string, head: string): Contract {
    Contract(CONTRACT_SCHEMA, PR_REGRESSION, files, hunks, base, head, "")
  }

  /** Promotes a pull request's receipt; the second part is the project afterwards. */
  function PinReceipt(p: Project, r: Receipt, root: string, name: string, sites: string -> Site): (Pinned, Project) {
    var files := NonBlank(Python, r.files);
    if files == [] then (FactsMissing, p)
    else
      var captured := Capture(sites(WorktreeOf(r, root)), r.base, r.head);
      match captured
      case HeadMismatch => (PinHeadMismatch, p)
      case HunksRequired => (PinHunksRequired, p)
      case Captured(hunks, base, head) =>
        var noted := if base != Trim(Python, r.base) || head != Trim(Python, r.head)
                     then p.(receipt := Some(Corrected(r, files, base, head, root))) else p;
        var scoped := Filter(hunks, IsScoped(files, name));
        if scoped == [] then (PinHunksRequired, noted)
        else
          var doc := PrContract(files, scoped + Filter(hunks, IsRelevant(files, name)), base, head);
          (Ok(doc), noted.(contract := Some(doc)))
  }

  function PinFacts(p: Project, root: string, name: string, sites: string -> Site, kind: string, enumerate: string)
    : (Pinned, Project)
  {
    var k, e := Trim(Python, kind), Trim(Python, enumerate);
    if k != "" && k != PR_REGRESSION && k != COVERAGE then (KindInvalid, p)
    else if p.receipt.Some? && IsPr(p.receipt.value.kind) then
      if k == COVERAGE || e == "legal_keys" then (SourceForbidden, p)
      else PinReceipt(p, p.receipt.value, root, name, sites)
    else if k == COVERAGE then
      var doc := Contract(CONTRACT_SCHEMA, COVERAGE, [], [], "", "", e);
      (Ok(doc), p.(contract := Some(doc)))
    else (FactsMissing, p)
  }

  /** The contract as its readers accept it. */
  function Load(p: Project): Option<Contract> {
    if p.contract.None? then None
    else
      var c := p.contract.value;
      var k := Trim(Python, c.kind);
      if k != PR_REGRESSION && k != COVERAGE then None
      else if k == PR_REGRESSION && (NonBlank(Python, c.files) == [] || c.hunks == [] || c.schema != CONTRACT_SCHEMA) then None
      else Some(c)
  }

  /** Whether the project stems from a pull request; none when receipt and goal disagree. */
  function PrSource(p: Project): Option<bool> {
    var goal := KindText(p.goalKind);
    if p.receipt.Some? && goal != "" && IsPr(p.receipt.value.kind) != IsPr(p.goalKind) then None
    else if p.receipt.Some? then Some(IsPr(p.receipt.value.kind))
    else Some(IsPr(p.goalKind))
  }

  function PrGate(p: Project, root: string, name: string, sites: string -> Site): (Gate, Project) {
    var source := PrSource(p);
    if source.None? then (KindConflict, p)
    else if !source.value then (Pass, p)
    else
      var c := Load(p);
      if c.Some? && NonBlank(Python, c.value.files) != [] && c.value.hunks != [] then (Pass, p)
      else if p.receipt.Some? && IsPr(p.receipt.value.kind) then
        var (pinned, after) := PinFacts(p, root, name, sites, "", "");
        (if pinned.Ok? then Pass else PinFailed(pinned), after)
      else (ChangeRequired, p)
  }

  /** The pinned head is where the project's repository stands. */
  predicate HeadVerified(c: Contract, site: Site) {
    c.kind != PR_REGRESSION || (Trim(Python, c.head) != "" && site.head == Trim(Python, c.head))
  }

  // ----- the project as the engine keeps it

  class Workspace {
    const root: string
    const name: string
    var project: Project

    constructor (root: string, name: string, project: Project)
      ensures this.root == root && this.name == name && this.project == project
    {
      this.root, this.name, this.project := root, name, project;
    }

    method CaptureHunks(site: Site, base: string, headSha: string) returns (captured: Captured)
      ensures captured == Capture(site, base, headSha)
    {
      var head := Trim(Python, headSha);
      if head == "" || site.head != head {
        return HeadMismatch;
      }
      var b := Trim(Python, base);
      if b == "" || b == head {
        b := ResolvePinBase(site.git, head, b);
      }
      if b == "" {
        return HunksRequired;
      }
      TrimProperties(Python, headSha);
      var hunks := site.hunks(b, head);
      if hunks == [] {
        var resolved := ResolvePinBase(site.git, head, b);
        if resolved != "" && resolved != b {
          b := resolved;
          hunks := site.hunks(b, head);
        }
      }
      if hunks == [] {
        return HunksRequired;
      }
      captured := Captured(hunks, b, head);
    }

    /** Promotes the receipt or pins local coverage. Only a successful pin changes the contract. */
    method Pin(sites: string -> Site, kind: string, enumerate: string) returns (pinned: Pinned)
      modifies this`project
      ensures (pinned, project) == PinFacts(old(project), root, name, sites, kind, enumerate)
      ensures !pinned.Ok? ==> project.contract == old(project).contract
    {
      var k, e := Trim(Python, kind), Trim(Python, enumerate);
      if k != "" && k != PR_REGRESSION && k != COVERAGE {
        return KindInvalid;
      }
      var receipt := project.receipt;
      if receipt.Some? && IsPr(receipt.value.kind) {
        if k == COVERAGE || e == "legal_keys" {
          return SourceForbidden;
        }
        var files := NonBlank(Python, receipt.value.files);
        if files == [] {
          return FactsMissing;
        }
        var captured := CaptureHunks(sites(WorktreeOf(receipt.value, root)), receipt.value.base, receipt.value.head);
        if captured.HeadMismatch? {
          return PinHeadMismatch;
        }
        if captured.HunksRequired? {
          return PinHunksRequired;
        }
        if captured.base != Trim(Python, receipt.value.base) || captured.head != Trim(Python, receipt.value.head) {
          project := project.(receipt := Some(Corrected(receipt.value, files, captured.base, captured.head, root)));
        }
        var scoped, relevant := ScopeHunks(captured.hunks, files, name);
        if scoped == [] {
          return PinHunksRequired;
        }
        var doc := PrContract(files, scoped + relevant, captured.base, captured.head);
        project := project.(contract := Some(doc));
        return Ok(doc);
      }
      if k == COVERAGE {
        var doc := Contract(CONTRACT_SCHEMA, COVERAGE, [], [], "", "", e);
        project := project.(contract := Some(doc));
        return Ok(doc);
      }
      pinned := FactsMissing;
    }
  }

  // ----- what a successful pin is good for

  lemma {:induction false} NonBlankIdempotent(files: seq<string>)
    ensures NonBlank(Python, NonBlank(Python, files)) == NonBlank(Python, files)
  {
    if files == [] {
    } else {
      NonBlankIdempotent(files[1..]);
      TrimProperties(Python, files[0]);
      TrimProperties(Python, Trim(Python, files[0]));
      var t, rest := Trim(Python, files[0]), NonBlank(Python, files[1..]);
      if t == "" {
        assert NonBlank(Python, files) == rest;
      } else {
        assert NonBlank(Python, files) == [t] + rest;
        assert ([t] + rest)[1..] == rest;
      }
    }
  }

  /** What was captured is the difference between two distinct commits, the later one checked out. */
  lemma CaptureProperties(site: Site, base: string, headSha: string)
    ensures var c := Capture(site, base, headSha);
            c.Captured? ==>
              && c.head == Trim(Python, headSha) == site.head && c.head != ""
              && c.base != c.head && c.base != ""
              && c.hunks == site.hunks(c.base, c.head) && c.hunks != []
  {
    var head := Trim(Python, headSha);
    PinBaseIff(site.git, head, Trim(Python, base));
    PinBaseIff(site.git, head, UsableBase(site, base, head));
    TrimProperties(Python, headSha);
    TrimProperties(Python, head);
  }

  /** Capturing again from what was captured gives the same. */
  lemma CaptureAgain(site: Site, base: string, headSha: string)
    requires Capture(site, base, headSha).Captured?
    requires Trimmed(Python, Capture(site, base, headSha).base)
    ensures var c := Capture(site, base, headSha);
            Capture(site, c.base, c.head) == c
  {
    var c := Capture(site, base, headSha);
    CaptureProperties(site, base, headSha);
    TrimProperties(Python, c.head);
    TrimProperties(Python, headSha);
    TrimProperties(Python, c.base);
  }

  lemma KindTextTrimmed(kind: string)
    ensures IsPr(Trim(Python, kind)) == IsPr(kind)
  {
    TrimProperties(Python, kind);
    TrimProperties(Python, Trim(Python, kind));
  }

  /** A successful promotion stores exactly the change of the pinned pair: distinct commits with the head
      checked out, the receipt's files, and the operator's own hunks before the merely relevant ones. */
  lemma PinStores(p: Project, root: string, name: string, sites: string -> Site, kind: string, enumerate: string)
    requires p.receipt.Some? && IsPr(p.receipt.value.kind)
    requires PinFacts(p, root, name, sites, kind, enumerate).0.Ok?
    ensures var (pinned, after) := PinFacts(p, root, name, sites, kind, enumerate);
            var c := pinned.contract;
            var site := sites(WorktreeOf(p.receipt.value, root));
            && after.contract == Some(c)
            && c.base != c.head && c.base != "" && c.head != "" && c.head == site.head
            && c.files == NonBlank(Python, p.receipt.value.files) && c.files != [] && c.enumerate == ""
            && c.hunks != [] && (forall h :: h in c.hunks ==> h in site.hunks(c.base, c.head))
            && (forall h :: h in site.hunks(c.base, c.head) && HunkPath(h) != "" ==>
                  FileMatches(HunkPath(h), c.files, name) || InOperatorTree(HunkPath(h), name) ==> h in c.hunks)
            && (exists h :: h in c.hunks && FileMatches(HunkPath(h), c.files, name))
            && after.receipt.Some? && IsPr(after.receipt.value.kind) && after.goalKind == p.goalKind
            && after.receipt.value
               == var r := p.receipt.value;
                  if Trim(Python, r.base) == c.base && Trim(Python, r.head) == c.head then r
                  else Receipt(Trim(Python, r.kind), c.files, c.base, c.head,
                               Trim(Python, if r.worktree != "" then r.worktree else root))
  {
    var r := p.receipt.value;
    var site := sites(WorktreeOf(r, root));
    CaptureProperties(site, r.base, r.head);
    KindTextTrimmed(r.kind);
    NonBlankIdempotent(r.files);
    hide Capture, IsPr, NonBlank, FileMatches, HunkPath, InOperatorTree, Trim;
    var files := NonBlank(Python, r.files);
    var captured := Capture(site, r.base, r.head);
    var scoped := Filter(captured.hunks, IsScoped(files, name));
    var relevant := Filter(captured.hunks, IsRelevant(files, name));
    var c := PinFacts(p, root, name, sites, kind, enumerate).0.contract;
    assert c.hunks == scoped + relevant;
    forall h ensures h in scoped <==> h in captured.hunks && IsScoped(files, name)(h) {
      FilterMember(captured.hunks, IsScoped(files, name), h);
    }
    forall h ensures h in relevant <==> h in captured.hunks && IsRelevant(files, name)(h) {
      FilterMember(captured.hunks, IsRelevant(files, name), h);
    }
    assert scoped[0] in scoped && scoped[0] in c.hunks;
    assert c.files == files && NonBlank(Python, c.files) == files;
  }

  lemma KindIsTrimmed()
    ensures Trim(Python, PR_REGRESSION) == PR_REGRESSION
  {
    TrimProperties(Python, PR_REGRESSION);
  }

  lemma PinShape(p: Project, root: string, name: string, sites: string -> Site, kind: string, enumerate: string)
    requires p.receipt.Some? && IsPr(p.receipt.value.kind)
    requires PinFacts(p, root, name, sites, kind, enumerate).0.Ok?
    ensures var c := PinFacts(p, root, name, sites, kind, enumerate).0.contract;
            c.schema == CONTRACT_SCHEMA && c.kind == PR_REGRESSION
  {
    hide Capture, IsPr, NonBlank, Trim, Filter;
  }

  /** After a successful promotion the contract loads back, and the pull-request gate passes without
      another pin exactly when the goal does not contradict the receipt. */
  lemma PinPassesGate(p: Project, root: string, name: string, sites: string -> Site, kind: string, enumerate: string)
    requires p.receipt.Some? && IsPr(p.receipt.value.kind)
    requires PinFacts(p, root, name, sites, kind, enumerate).0.Ok?
    ensures var (pinned, after) := PinFacts(p, root, name, sites, kind, enumerate);
            && Load(after) == Some(pinned.contract)
            && (PrGate(after, root, name, sites) == (Pass, after)
                <==> KindText(p.goalKind) == "" || IsPr(p.goalKind))
  {
    PinStores(p, root, name, sites, kind, enumerate);
    PinShape(p, root, name, sites, kind, enumerate);
    NonBlankIdempotent(p.receipt.value.files);
    KindIsTrimmed();
    hide PinFacts, Trim, NonBlank, IsPr, KindText, FileMatches, HunkPath;
  }

  /** The pinned head is verified exactly while the project's repository stands at the HEAD the worktree had. */
  lemma PinVerifiesHead(p: Project, root: string, name: string, sites: string -> Site, kind: string, enumerate: string,
                        now: Site)
    requires p.receipt.Some? && IsPr(p.receipt.value.kind)
    requires PinFacts(p, root, name, sites, kind, enumerate).0.Ok?
    requires Trimmed(Python, sites(WorktreeOf(p.receipt.value, root)).head)
    ensures HeadVerified(PinFacts(p, root, name, sites, kind, enumerate).0.contract, now)
       <==> now.head == sites(WorktreeOf(p.receipt.value, root)).head
  {
    PinStores(p, root, name, sites, kind, enumerate);
    PinShape(p, root, name, sites, kind, enumerate);
    TrimProperties(Python, PinFacts(p, root, name, sites, kind, enumerate).0.contract.head);
    hide PinFacts, Trim, NonBlank, IsPr, FileMatches, HunkPath;
  }

  /** Pinning again changes nothing: the corrected receipt leads to the same contract. */
  lemma PinTwice(p: Project, root: string, name: string, sites: string -> Site, kind: string, enumerate: string)
    requires p.receipt.Some? && IsPr(p.receipt.value.kind)
    requires PinFacts(p, root, name, sites, kind, enumerate).0.Ok?
    requires Trimmed(Python, WorktreeOf(p.receipt.value, root)) && WorktreeOf(p.receipt.value, root) != ""
    requires Trimmed(Python, PinFacts(p, root, name, sites, kind, enumerate).0.contract.base)
    ensures var (pinned, after) := PinFacts(p, root, name, sites, kind, enumerate);
            PinFacts(after, root, name, sites, kind, enumerate) == (pinned, after)
  {
    var r := p.receipt.value;
    var site := sites(WorktreeOf(r, root));
    var files := NonBlank(Python, r.files);
    var (pinned, after) := PinFacts(p, root, name, sites, kind, enumerate);
    var r2 := after.receipt.value;
    CaptureProperties(site, r.base, r.head);
    CaptureAgain(site, r.base, r.head);
    NonBlankIdempotent(r.files);
    KindTextTrimmed(r.kind);
    TrimProperties(Python, WorktreeOf(r, root));
    TrimProperties(Python, r.head);
    TrimProperties(Python, Trim(Python, r.head));
    TrimProperties(Python, pinned.contract.base);
    assert sites(WorktreeOf(r2, root)) == site;
    assert Capture(site, r2.base, r2.head) == Capture(site, r.base, r.head);
    assert NonBlank(Python, r2.files) == files;
  }

  /** A failed pin never touches the contract. */
  lemma FailedPinKeepsContract(p: Project, root: string, name: string, sites: string -> Site, kind: string, enumerate: string)
    ensures var (pinned, after) := PinFacts(p, root, name, sites, kind, enumerate);
            && (!pinned.Ok? ==> after.contract == p.contract)
            && (pinned.Ok? ==> after.contract == Some(pinned.contract))
            && (p.receipt.Some? && IsPr(p.receipt.value.kind) && pinned.Ok? ==> pinned.contract.kind == PR_REGRESSION)
  {
  }

  /** When a difference is captured: the head must be checked out, and the claimed base, or the one git offers in its
      place, must give hunks; failing that, another base that git offers must. */
  lemma CaptureIff(site: Site, base: string, headSha: string)
    ensures var head, claimed := Trim(Python, headSha), Trim(Python, base);
            var first := if claimed == "" || claimed == head then PinBase(site.git, head, claimed) else claimed;
            var second := PinBase(site.git, head, first);
            var c := Capture(site, base, headSha);
            && (c == HeadMismatch <==> head == "" || site.head != head)
            && (head != "" && site.head == head && first != "" && site.hunks(first, head) != [] ==>
                  c == Captured(site.hunks(first, head), first, head))
            && (head != "" && site.head == head && first != "" && site.hunks(first, head) == [] ==>
                  c == if second != "" && site.hunks(second, head) != [] then Captured(site.hunks(second, head), second, head)
                       else HunksRequired)
            && (head != "" && site.head == head && first == "" ==> c == HunksRequired)
  {
    hide Trim, PinBase;
  }

  /** Which stored contracts are read: of either kind, and for a pull request only with files, hunks and this schema. */
  lemma LoadIff(p: Project)
    ensures Load(p).Some? <==>
              && p.contract.Some?
              && var c := p.contract.value;
                 var k := Trim(Python, c.kind);
                 || k == "implementation_coverage"
                 || (k == "pr_regression" && c.hunks != [] && c.schema == "tg-change-contract/v2"
                     && exists i :: 0 <= i < |c.files| && Trim(Python, c.files[i]) != "")
    ensures Load(p).Some? ==> Load(p) == p.contract
  {
    if p.contract.Some? {
      NonBlankIff(p.contract.value.files);
    }
    hide Trim, NonBlank;
  }

  lemma {:induction false} NonBlankIff(files: seq<string>)
    ensures NonBlank(Python, files) != [] <==> exists i :: 0 <= i < |files| && Trim(Python, files[i]) != ""
  {
    var kept := NonBlank(Python, files);
    if kept != [] {
      assert kept[0] in kept;
      NonBlankMember(Python, files, kept[0]);
    }
    if i :| 0 <= i < |files| && Trim(Python, files[i]) != "" {
      NonBlankMember(Python, files, Trim(Python, files[i]));
    }
  }

  /** A source kind of a pull request: either word, in any letter case, with white space around it. */
  lemma IsPrIff(kind: string)
    ensures IsPr(kind) <==> LowerText(Trim(Python, kind)) == "pull_request" || LowerText(Trim(Python, kind)) == "pr"
  {
  }

  /** What the gate of a pull request does in every case. Receipt and goal must agree; other sources pass; a readable
      contract of a pull request passes as it is; without one the receipt is promoted, and without a receipt the change is
      asked for. */
  lemma GateIff(p: Project, root: string, name: string, sites: string -> Site)
    ensures var (gate, after) := PrGate(p, root, name, sites);
            var goalSays := LowerText(Trim(Python, p.goalKind)) != "";
            var conflict := p.receipt.Some? && goalSays && IsPr(p.receipt.value.kind) != IsPr(p.goalKind);
            var isPr := if p.receipt.Some? then IsPr(p.receipt.value.kind) else IsPr(p.goalKind);
            var pinned := Load(p).Some? && NonBlank(Python, Load(p).value.files) != [] && Load(p).value.hunks != [];
            && (conflict ==> gate == KindConflict && after == p)
            && (!conflict && !isPr ==> gate == Pass && after == p)
            && (!conflict && isPr && pinned ==> gate == Pass && after == p)
            && (!conflict && isPr && !pinned && p.receipt.None? ==> gate == ChangeRequired && after == p)
            && (!conflict && isPr && !pinned && p.receipt.Some? ==>
                  && after == PinFacts(p, root, name, sites, "", "").1
                  && (gate == Pass <==> PinFacts(p, root, name, sites, "", "").0.Ok?)
                  && (gate != Pass ==> gate == PinFailed(PinFacts(p, root, name, sites, "", "").0)))
  {
    hide PinFacts, Trim, NonBlank, Load, IsPr;
  }

  /** A gate that passes a pull request leaves a contract that can be read, with files and hunks. */
  lemma PassedGateIsPinned(p: Project, root: string, name: string, sites: string -> Site)
    requires p.receipt.Some? && IsPr(p.receipt.value.kind)
    requires PrGate(p, root, name, sites).0 == Pass
    ensures var c := Load(PrGate(p, root, name, sites).1);
            c.Some? && NonBlank(Python, c.value.files) != [] && c.value.hunks != []
  {
    GateIff(p, root, name, sites);
    if PinFacts(p, root, name, sites, "", "").0.Ok? {
      PinStores(p, root, name, sites, "", "");
      PinPassesGate(p, root, name, sites, "", "");
      NonBlankIdempotent(p.receipt.value.files);
    }
    hide PinFacts, Trim, NonBlank, Load, IsPr, PrGate, KindText, FileMatches, HunkPath, InOperatorTree;
  }

  /** Some hunk belongs to the operator's changed files. */
  predicate SomeScoped(hunks: seq<Hunk>, files: seq<string>, name: string) {
    exists h :: h in hunks && HunkPath(h) != "" && FileMatches(HunkPath(h), NonBlank(Python, files), name)
  }

  /** Why a pin fails, by what was asked and what the receipt says. */
  lemma PinFailsIff(p: Project, root: string, name: string, sites: string -> Site, kind: string, enumerate: string)
    ensures var pinned := PinFacts(p, root, name, sites, kind, enumerate).0;
            var k, e := Trim(Python, kind), Trim(Python, enumerate);
            var pr := p.receipt.Some? && IsPr(p.receipt.value.kind);
            && (pinned == KindInvalid <==> k !in {"", "pr_regression", "implementation_coverage"})
            && (pinned == SourceForbidden <==> pr && (k == "implementation_coverage"
                                                      || (e == "legal_keys" && k in {"", "pr_regression"})))
            && (!pr && k in {"", "pr_regression"} ==> pinned == FactsMissing)
            && (!pr && k == "implementation_coverage" ==>
                  pinned == Ok(Contract("tg-change-contract/v2", "implementation_coverage", [], [], "", "", e)))
            && (pr && k in {"", "pr_regression"} && e != "legal_keys" ==>
                  var r := p.receipt.value;
                  var site := sites(if r.worktree != "" then r.worktree else root);
                  var captured := Capture(site, r.base, r.head);
                  && (pinned == FactsMissing <==> NonBlank(Python, r.files) == [])
                  && (NonBlank(Python, r.files) != [] ==>
                        && (pinned == PinHeadMismatch <==> captured == HeadMismatch)
                        && (pinned.Ok? <==> captured.Captured? && SomeScoped(captured.hunks, r.files, name))))
  {
    hide Capture, Trim, NonBlank, IsPr, HunkPath, FileMatches, InOperatorTree, Filter;
    if p.receipt.Some? {
      var r := p.receipt.value;
      var captured := Capture(sites(WorktreeOf(r, root)), r.base, r.head);
      var files := NonBlank(Python, r.files);
      NonBlankIdempotent(r.files);
      if captured.Captured? {
        FilterEmptyIff(captured.hunks, IsScoped(files, name));
      }
    }
  }
}
