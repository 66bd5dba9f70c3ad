/** Materialising a checkout for a pull request (engines/workspace/git_workspace.py): the workspace
    lock, and a destination that must end at the requested commit without destroying a user's tree. */
module Worktree {
  import opened Text
  import opened Lists

  /** What stands at the destination: nothing, or a directory that may hold operator sources
      (`op_host` or `op_kernel`) and may be a git checkout with a HEAD, else the empty text. */
  datatype Place = Missing | Tree(operator: bool, head: string)

  /** The lock file: missing, or the text it holds as its run id. */
  datatype Lock = Unlocked | Locked(run: string)

  /** What reading the file as YAML makes of a run id written as plain text: the empty text for one that
      reads as nothing, such as `null`, `no` or `0`, another text for one like `007`. */
  type Reader = string -> string

  datatype Outcome =
    | Ready(reused: bool)
    | EmptySha
    | InUse(run: string)
    | ShaMismatch
    | ExistsNotGit
    | WipeFailed
    | GitFailed

  /** Commit ids agree when one abbreviates the other. */
  predicate ShaMatches(existing: string, wanted: string) {
    var a, b := LowerText(Trim(Python, existing)), LowerText(Trim(Python, wanted));
    a != "" && b != "" && (a <= b || b <= a)
  }

  /** Two commit ids name one commit as far as they go: neither is blank, and letter case apart they agree in every
      place that both have. */
  predicate SameCommit(a: string, b: string) {
    var x, y := Trim(Python, a), Trim(Python, b);
    && x != "" && y != ""
    && forall i :: 0 <= i < |x| && i < |y| ==> LowerChar(x[i]) == LowerChar(y[i])
  }

  /** The test of the code decides this. */
  lemma ShaMatchesIff(a: string, b: string)
    ensures ShaMatches(a, b) <==> SameCommit(a, b)
  {
    var x, y := LowerText(Trim(Python, a)), LowerText(Trim(Python, b));
    hide Trim;
    if SameCommit(a, b) {
      if |x| <= |y| {
        assert x == y[..|x|];
      } else {
        assert y == x[..|y|];
      }
    }
    if x <= y || y <= x {
      assert forall i :: 0 <= i < |x| && i < |y| ==> x[i] == y[i];
    }
  }

  /** Ids of one length name one commit exactly when they differ in letter case only. */
  lemma SameLengthIff(a: string, b: string)
    requires |Trim(Python, a)| == |Trim(Python, b)| > 0
    ensures ShaMatches(a, b) <==> LowerText(Trim(Python, a)) == LowerText(Trim(Python, b))
  {
    ShaMatchesIff(a, b);
    hide Trim;
  }

  lemma BlankIsNoCommit(a: string, b: string)
    ensures SameCommit(a, b) ==> a != ""
  {
  }

  lemma ShaMatchesIsSymmetric(a: string, b: string)
    ensures ShaMatches(a, b) == ShaMatches(b, a)
    ensures ShaMatches(a, a) <==> Trim(Python, a) != ""
  {
  }

  function RunName(runId: string): string {
    var name := Trim(Python, runId);
    if name == "" then "run" else name
  }

  function Holder(read: Reader, lock: Lock): string {
    if lock.Unlocked? then "" else Trim(Python, read(lock.run))
  }

  /** The name is read back as it was written. */
  predicate ReadsBack(read: Reader, name: string) {
    Trim(Python, read(name)) == name
  }

  /** Whether a run gets the lock, and the lock afterwards. */
  function Acquire(read: Reader, lock: Lock, runId: string): (r: (bool, Lock)) {
    var name := RunName(runId);
    if Holder(read, lock) != "" && Holder(read, lock) != name then (false, lock) else (true, Locked(name))
  }

  lemma RefusedKeepsLock(read: Reader, lock: Lock, runId: string)
    ensures !Acquire(read, lock, runId).0 ==> Acquire(read, lock, runId).1 == lock
  {
  }

  /** A run that has the lock gets it again exactly when its name reads back as itself or as nothing, and
      the lock names it exactly when the name reads back. */
  lemma GrantedAgain(read: Reader, lock: Lock, runId: string)
    requires Acquire(read, lock, runId).0
    ensures var next := Acquire(read, lock, runId).1;
            && next == Locked(RunName(runId))
            && (Holder(read, next) == RunName(runId) <==> ReadsBack(read, RunName(runId)))
            && (Acquire(read, next, runId) == (true, next)
                <==> Trim(Python, read(RunName(runId))) in {"", RunName(runId)})
  {
  }

  lemma GrantedName(read: Reader, lock: Lock, runId: string)
    ensures Acquire(read, lock, runId).0 ==> Acquire(read, lock, runId).1 == Locked(RunName(runId))
    ensures ReadsBack(read, RunName(runId)) ==> Holder(read, Locked(RunName(runId))) == RunName(runId)
  {
  }

  /** The locks along a sequence of whole acquisitions, and who was let in. */
  function Acquisitions(read: Reader, lock: Lock, runs: seq<string>): (Lock, seq<bool>)
    decreases runs
  {
    if runs == [] then (lock, [])
    else
      var (ok, next) := Acquire(read, lock, runs[0]);
      var (last, rest) := Acquisitions(read, next, runs[1..]);
      (last, [ok] + rest)
  }

  /** Once the lock names a run whose name reads back, it names it for ever, and exactly the acquisitions of
      that run succeed. */
  lemma {:induction false} HolderKeepsLock(read: Reader, lock: Lock, runs: seq<string>)
    requires Holder(read, lock) != "" && ReadsBack(read, Holder(read, lock))
    ensures var (last, oks) := Acquisitions(read, lock, runs);
            && Holder(read, last) == Holder(read, lock)
            && |oks| == |runs|
            && forall i :: 0 <= i < |runs| ==> (oks[i] <==> RunName(runs[i]) == Holder(read, lock))
    decreases runs
  {
    if runs == [] {
    } else {
      hide Trim, RunName;
      NameIsTrimmed(runs[0]);
      var (ok, next) := Acquire(read, lock, runs[0]);
      HolderKeepsLock(read, next, runs[1..]);
    }
  }

  lemma NameIsTrimmed(runId: string)
    ensures Trim(Python, RunName(runId)) == RunName(runId) != ""
  {
    TrimProperties(Python, runId);
    TrimProperties(Python, Trim(Python, runId));
    TrimProperties(Python, "run");
  }

  /** The first acquisition gets the lock, and after it exactly those of its own run. */
  predicate OwnsLock(read: Reader, lock: Lock, first: string, later: seq<string>) {
    var oks := Acquisitions(read, lock, [first] + later).1;
    && |oks| == |later| + 1 && oks[0]
    && forall i :: 0 <= i < |later| ==> (oks[i + 1] <==> RunName(later[i]) == RunName(first))
  }

  /** A free lock belongs to the first run, whatever runs come later, exactly when that run's name reads back. */
  lemma FirstRunOwnsLock(read: Reader, lock: Lock, first: string)
    requires Holder(read, lock) == ""
    ensures (forall later :: OwnsLock(read, lock, first, later)) <==> ReadsBack(read, RunName(first))
  {
    var name := RunName(first);
    NameIsTrimmed(first);
    if ReadsBack(read, name) {
      forall later ensures OwnsLock(read, lock, first, later) {
        OwnedByReadBack(read, lock, first, later);
      }
    } else if Holder(read, Locked(name)) == "" {
      var other := name + "x";
      OtherName(name);
      UnreadNameIsNoOwner(read, lock, first, other);
      assert !OwnsLock(read, lock, first, [other]);
    } else {
      ChangedNameLocksOut(read, lock, first);
      assert !OwnsLock(read, lock, first, [first]);
    }
  }

  lemma OwnedByReadBack(read: Reader, lock: Lock, first: string, later: seq<string>)
    requires Holder(read, lock) == "" && ReadsBack(read, RunName(first))
    ensures OwnsLock(read, lock, first, later)
    ensures Holder(read, Acquisitions(read, lock, [first] + later).0) == RunName(first)
  {
    NameIsTrimmed(first);
    HolderKeepsLock(read, Locked(RunName(first)), later);
    assert ([first] + later)[1..] == later;
  }

  lemma OtherName(name: string)
    requires Trim(Python, name) == name != ""
    ensures RunName(name + "x") == name + "x" != name
  {
    TrimProperties(Python, name);
    TrimProperties(Python, name + "x");
  }

  /** A name that reads as nothing, like "0" or "null", leaves the lock free: every other run gets it as well. */
  lemma UnreadNameIsNoOwner(read: Reader, lock: Lock, first: string, other: string)
    requires Holder(read, lock) == "" && Trim(Python, read(RunName(first))) == ""
    ensures Acquisitions(read, lock, [first, other]).1 == [true, true]
  {
    assert [first, other][1..] == [other];
    assert Acquisitions(read, Locked(RunName(first)), [other]).1 == [true];
  }

  /** A name that reads as another one, like "007", locks its own run out. */
  lemma ChangedNameLocksOut(read: Reader, lock: Lock, first: string)
    requires Holder(read, lock) == ""
    requires Trim(Python, read(RunName(first))) !in {"", RunName(first)}
    ensures Acquisitions(read, lock, [first, first]).1 == [true, false]
  {
    assert [first, first][1..] == [first];
    assert Acquisitions(read, Locked(RunName(first)), [first]).1 == [false];
  }

  // ----- acquisitions that overlap

  /** An acquisition reads the file and writes it in two steps. */
  datatype LockStep = Check(run: string) | Write(run: string)

  /** The lock, the runs whose check passed and whose write is due, and the runs told they have it. */
  datatype LockState = LockState(lock: Lock, due: set<string>, told: set<string>)

  function LockNext(read: Reader, s: LockState, step: LockStep): LockState {
    match step
    case Check(run) => if Acquire(read, s.lock, run).0 then s.(due := s.due + {run}) else s
    case Write(run) =>
      if run in s.due then LockState(Locked(RunName(run)), s.due - {run}, s.told + {run}) else s
  }

  function LockRun(read: Reader, s: LockState, steps: seq<LockStep>): LockState
    decreases steps
  {
    if steps == [] then s else LockRun(read, LockNext(read, s, steps[0]), steps[1..])
  }

  /** Two runs of different names have been told that they have the lock. */
  predicate TwoTold(told: set<string>) {
    exists a, b :: a in told && b in told && RunName(a) != RunName(b)
  }

  /** A run of another name is due its write, and writes. */
  predicate OtherWrites(due: set<string>, name: string, steps: seq<LockStep>) {
    exists b :: b in due && RunName(b) != name && Write(b) in steps
  }

  lemma {:induction false} ToldGrows(read: Reader, s: LockState, steps: seq<LockStep>)
    ensures s.told <= LockRun(read, s, steps).told
    decreases steps
  {
    if steps == [] {
    } else {
      ToldGrows(read, LockNext(read, s, steps[0]), steps[1..]);
    }
  }

  /** From a write on, a second run is let in exactly when one of another name was due at that write and
      writes later: no check of another name passes any more. */
  lemma {:induction false} AfterWrite(read: Reader, s: LockState, steps: seq<LockStep>, name: string)
    requires s.lock == Locked(name) && name != "" && ReadsBack(read, name)
    requires s.told != {} && forall run :: run in s.told ==> RunName(run) == name
    ensures TwoTold(LockRun(read, s, steps).told) <==> OtherWrites(s.due, name, steps)
    decreases steps
  {
    if steps == [] {
    } else {
      var step, rest := steps[0], steps[1..];
      var next := LockNext(read, s, step);
      assert steps == [step] + rest;
      if step.Write? && step.run in s.due && RunName(step.run) != name {
        var a :| a in s.told;
        ToldGrows(read, next, rest);
        assert step.run in next.told && a in next.told;
        assert Write(step.run) in steps;
      } else {
        AfterWrite(read, next, rest, name);
      }
    }
  }

  /** The step is the first write that takes effect, another name is due then, and it writes later. */
  predicate RaceAt(read: Reader, s: LockState, steps: seq<LockStep>, i: nat)
    requires i < |steps|
  {
    var before := LockRun(read, s, steps[..i]);
    && steps[i].Write? && before.told == {} && steps[i].run in before.due
    && OtherWrites(before.due, RunName(steps[i].run), steps[i + 1..])
  }

  lemma RaceAtLater(read: Reader, s: LockState, steps: seq<LockStep>, i: nat)
    requires 0 < i < |steps|
    ensures RaceAt(read, s, steps, i) <==> RaceAt(read, LockNext(read, s, steps[0]), steps[1..], i - 1)
  {
    assert steps[..i][1..] == steps[1..][..i - 1];
    assert steps[1..][i - 1] == steps[i] && steps[1..][i..] == steps[i + 1..];
  }

  /** From a free lock with nobody told, two runs of different names are told exactly when at the first write
      that takes effect a run of another name is already due, and that one writes later. */
  lemma {:induction false} RaceIff(read: Reader, s: LockState, steps: seq<LockStep>)
    requires Holder(read, s.lock) == "" && s.told == {}
    requires forall step :: step in steps ==> ReadsBack(read, RunName(step.run))
    ensures TwoTold(LockRun(read, s, steps).told) <==> exists i: nat :: i < |steps| && RaceAt(read, s, steps, i)
    decreases steps
  {
    if steps == [] {
    } else {
      var step, rest := steps[0], steps[1..];
      var next := LockNext(read, s, step);
      assert steps == [step] + rest && step in steps && steps[..0] == [];
      NameIsTrimmed(step.run);
      if step.Write? && step.run in s.due {
        AfterWrite(read, next, rest, RunName(step.run));
        FirstWriteDecides(read, s, steps);
      } else {
        RaceIff(read, next, rest);
        RaceMoves(read, s, steps);
      }
    }
  }

  /** The run that writes is no other name, so it does not matter that its own write is no longer due. */
  lemma OwnWriteDone(due: set<string>, run: string, steps: seq<LockStep>)
    ensures OtherWrites(due - {run}, RunName(run), steps) <==> OtherWrites(due, RunName(run), steps)
  {
  }

  lemma FirstWriteDecides(read: Reader, s: LockState, steps: seq<LockStep>)
    requires steps != [] && steps[0].Write? && steps[0].run in s.due && s.told == {}
    ensures (exists i: nat :: i < |steps| && RaceAt(read, s, steps, i))
       <==> OtherWrites(s.due - {steps[0].run}, RunName(steps[0].run), steps[1..])
  {
    hide RunName, OtherWrites, Acquire;
    var run := steps[0].run;
    OwnWriteDone(s.due, run, steps[1..]);
    assert steps[..0] == [] && LockRun(read, s, []) == s;
    assert RaceAt(read, s, steps, 0) <==> OtherWrites(s.due, RunName(run), steps[1..]);
    forall i: nat | 0 < i < |steps| ensures !RaceAt(read, s, steps, i) {
      ToldGrows(read, LockNext(read, s, steps[0]), steps[..i][1..]);
      assert run in LockRun(read, s, steps[..i]).told;
    }
  }

  lemma RaceMoves(read: Reader, s: LockState, steps: seq<LockStep>)
    requires steps != [] && !(steps[0].Write? && steps[0].run in s.due)
    ensures (exists i: nat :: i < |steps| && RaceAt(read, s, steps, i))
       <==> exists i: nat :: i < |steps[1..]| && RaceAt(read, LockNext(read, s, steps[0]), steps[1..], i)
  {
    hide RunName, OtherWrites, Acquire;
    var next := LockNext(read, s, steps[0]);
    assert steps[..0] == [] && LockRun(read, s, []) == s;
    if i: nat :| i < |steps| && RaceAt(read, s, steps, i) {
      assert i > 0;
      RaceAtLater(read, s, steps, i);
    }
    if i: nat :| i < |steps[1..]| && RaceAt(read, next, steps[1..], i) {
      RaceAtLater(read, s, steps, i + 1);
    }
  }

  /** Once the lock names a run and no other check is due its write, no interleaving lets another run in. */
  lemma {:induction false} NoOtherRunAfterWrite(read: Reader, s: LockState, steps: seq<LockStep>, name: string)
    requires Holder(read, s.lock) == name != "" && ReadsBack(read, name)
    requires forall run :: run in s.due + s.told ==> RunName(run) == name
    ensures var last := LockRun(read, s, steps);
            Holder(read, last.lock) == name && forall run :: run in last.due + last.told ==> RunName(run) == name
    decreases steps
  {
    if steps == [] {
    } else {
      NameIsTrimmed(steps[0].run);
      NoOtherRunAfterWrite(read, LockNext(read, s, steps[0]), steps[1..], name);
    }
  }

  /** The shortest race: any two runs of different names check before either writes. */
  lemma ChecksBeforeWriteRace(read: Reader, a: string, b: string)
    requires RunName(a) != RunName(b) && ReadsBack(read, RunName(a)) && ReadsBack(read, RunName(b))
    ensures TwoTold(LockRun(read, LockState(Unlocked, {}, {}), [Check(a), Check(b), Write(a), Write(b)]).told)
  {
    var s := LockState(Unlocked, {}, {});
    var steps := [Check(a), Check(b), Write(a), Write(b)];
    RaceIff(read, s, steps);
    var one := LockNext(read, s, Check(a));
    var two := LockNext(read, one, Check(b));
    assert steps[..2] == [Check(a), Check(b)] && [Check(a), Check(b)][1..] == [Check(b)] && [Check(b)][1..] == [];
    assert LockRun(read, s, steps[..2]) == LockRun(read, one, [Check(b)]) == two;
    assert steps[3..][0] == Write(b);
    assert RaceAt(read, s, steps, 2);
  }

  /** The destination and its workspace. Git and the file system answer as they like, except that a
      checkout or a worktree that succeeds stands at a commit the requested id abbreviates. */
  class Workspace {
    const read: Reader
    const isolated: bool
    var dest: Place
    var lock: Lock
    ghost var removed: seq<Place>

    constructor (read: Reader, isolated: bool, dest: Place, lock: Lock)
      ensures this.read == read && this.isolated == isolated && this.dest == dest && this.lock == lock && removed == []
    {
      this.read, this.isolated, this.dest, this.lock := read, isolated, dest, lock;
      removed := [];
    }

    method TakeLock(runId: string) returns (ok: bool)
      modifies this`lock
      ensures (ok, lock) == Acquire(read, old(lock), runId)
    {
      var name := RunName(runId);
      if lock.Locked? {
        var other := Trim(Python, read(lock.run));
        if other != "" && other != name {
          return false;
        }
      }
      lock := Locked(name);
      ok := true;
    }

    /** Deletes what stands at the destination, as far as the file system lets it. */
    method DeleteTree()
      modifies this`dest, this`removed
      ensures removed == if old(dest).Missing? then old(removed) else old(removed) + [old(dest)]
      ensures old(dest).Missing? ==> dest.Missing?
    {
      if dest.Tree? {
        removed := removed + [dest];
        var gone: bool := *;
        var operator: bool := *;
        var head: string := *;
        dest := if gone then Missing else Tree(operator, head);
      }
    }

    method Checkout(sha: string) returns (ok: bool)
      requires dest.Tree?
      modifies this`dest
      ensures dest.Tree? && (ok ==> SameCommit(dest.head, sha)) && (!ok ==> dest == old(dest))
    {
      var head: string := *;
      var operator: bool := *;
      ShaMatchesIff(head, sha);
      ok := ShaMatches(head, sha);
      if ok {
        dest := Tree(operator, head);
      }
    }

    method Fetch() returns (ok: bool) {
      ok := *;
    }

    /** `git worktree add`: a failure may leave anything behind. */
    method AddWorktree(sha: string) returns (ok: bool)
      modifies this`dest
      ensures ok ==> dest.Tree? && SameCommit(dest.head, sha)
    {
      var head: string := *;
      var operator: bool := *;
      var left: bool := *;
      ShaMatchesIff(head, sha);
      ok := ShaMatches(head, sha);
      if ok || left {
        dest := Tree(operator, head);
      }
    }

    method Clone() returns (ok: bool)
      modifies this`dest
      ensures ok ==> dest.Tree?
    {
      var head: string := *;
      var operator: bool := *;
      var left: bool := *;
      ok := *;
      if ok || left {
        dest := Tree(operator, head);
      }
    }

    method Materialize(sha: string) returns (r: Outcome)
      modifies this`dest
      ensures r == Ready(false) || r == GitFailed
      ensures r.Ready? ==> dest.Tree? && SameCommit(dest.head, sha)
    {
      var added := AddWorktree(sha);
      if added {
        return Ready(false);
      }
      var cloned := Clone();
      if !cloned {
        return GitFailed;
      }
      var checked := Checkout(sha);
      r := if checked then Ready(false) else GitFailed;
    }

    /** What is done with a destination that already stands: it is reused, refused or cleared.
        A result ends the call. */
    method ReuseOrClear(sha: string, runId: string) returns (ended: Option<Outcome>)
      requires dest.Tree? && sha != ""
      modifies this
      ensures ended.Some? && ended.value.Ready? ==>
                ended.value.reused && dest.Tree? && SameCommit(dest.head, sha) && removed == old(removed)
      ensures (old(dest).operator || old(dest).head != "") && !isolated ==>
                ended.Some? && removed == old(removed) && (!ended.value.Ready? ==> dest == old(dest))
      ensures SameCommit(old(dest).head, sha) && (runId == "" || Acquire(read, old(lock), runId).0) ==>
                ended == Some(Ready(true)) && dest == old(dest)
      ensures ended.Some? ==> match ended.value
                              case Ready(_) => old(dest).head != ""
                              case InUse(_) => true
                              case ShaMismatch => !isolated && old(dest).head != "" && !SameCommit(old(dest).head, sha)
                              case ExistsNotGit => !isolated && old(dest).head == "" && old(dest).operator
                              case WipeFailed => isolated && removed == old(removed) + [old(dest)]
                              case _ => false
      ensures removed == old(removed) || removed == old(removed) + [old(dest)]
      ensures ended.None? ==> removed == old(removed) + [old(dest)] && (isolated ==> dest.Missing?)
      ensures runId != "" && !Acquire(read, old(lock), runId).0 ==>
                ended == Some(InUse(Holder(read, old(lock)))) && dest == old(dest) && lock == old(lock) && removed == old(removed)
      ensures ended.Some? && ended.value.InUse? ==> runId != "" && !Acquire(read, old(lock), runId).0
      ensures lock == if runId == "" then old(lock) else Acquire(read, old(lock), runId).1
    {
      hide SameCommit, ShaMatches, Acquire, Holder, RunName, Trim;
      if runId != "" {
        var held := TakeLock(runId);
        if !held {
          RefusedKeepsLock(read, old(lock), runId);
          return Some(InUse(Holder(read, lock)));
        }
      }
      var existing := dest.head;
      ShaMatchesIff(existing, sha);
      BlankIsNoCommit(existing, sha);
      if ShaMatches(existing, sha) {
        return Some(Ready(true));
      }
      if existing != "" {
        var checked := Checkout(sha);
        if checked {
          return Some(Ready(true));
        }
        var fetched := Fetch();
        if fetched {
          checked := Checkout(sha);
          if checked {
            return Some(Ready(true));
          }
        }
        if isolated {
          DeleteTree();
        } else {
          return Some(ShaMismatch);
        }
      } else {
        if dest.operator && !isolated {
          return Some(ExistsNotGit);
        }
        DeleteTree();
      }
      if dest.Tree? && isolated {
        return Some(WipeFailed);
      }
      return None;
    }

    /** Materialises the commit; an isolated destination is wiped and tried once more, and only what
        this call created is cleaned up elsewhere. */
    method Populate(sha: string, existedBefore: bool) returns (r: Outcome)
      requires isolated ==> dest.Missing?
      modifies this`dest, this`removed
      ensures r == Ready(false) || r == GitFailed
      ensures r.Ready? ==> dest.Tree? && SameCommit(dest.head, sha)
      ensures old(removed) <= removed
      ensures !isolated && existedBefore ==> removed == old(removed)
    {
      hide SameCommit, ShaMatches;
      r := Materialize(sha);
      if r.Ready? {
        return;
      }
      if isolated {
        DeleteTree();
        if dest.Missing? {
          r := Materialize(sha);
          if r.Ready? {
            return;
          }
          DeleteTree();
        }
        return;
      }
      if dest.Tree? && !existedBefore {
        DeleteTree();
      }
    }

    /** `create_worktree`. A ready result stands at the requested commit; an operator tree or a checkout
        of the user's that was there before is never deleted; a lock held by another run stops
        everything; and a named run that gets past the lock leaves its name in it. The lock is taken twice
        when something stood at the destination, so a run whose name does not read back can be stopped by
        its own lock. */
    method Create(sha: string, runId: string) returns (r: Outcome)
      modifies this
      ensures sha == "" ==> r == EmptySha && dest == old(dest) && lock == old(lock)
      ensures r.Ready? ==> dest.Tree? && SameCommit(dest.head, sha)
      ensures r == EmptySha <==> sha == ""
      ensures r.Ready? && r.reused ==> removed == old(removed) && old(dest).Tree?
      ensures sha != "" && (runId == "" || Acquire(read, old(lock), runId).0) && old(dest).Tree? && SameCommit(old(dest).head, sha) ==>
                r == Ready(true) && dest == old(dest)
      ensures !isolated && old(dest).Tree? && old(dest).head != "" && !r.Ready? ==> r in {EmptySha, ShaMismatch} || r.InUse?
      ensures !isolated && old(dest).Tree? && old(dest).head == "" && old(dest).operator ==> r in {EmptySha, ExistsNotGit} || r.InUse?
      ensures r == ShaMismatch ==> !isolated && old(dest).Tree? && old(dest).head != "" && !SameCommit(old(dest).head, sha)
      ensures r == ExistsNotGit ==> !isolated && old(dest).Tree? && old(dest).head == "" && old(dest).operator
      ensures r == WipeFailed ==> isolated && old(dest).Tree? && removed == old(removed) + [old(dest)]
      ensures old(removed) <= removed
      ensures !isolated && old(dest).Tree? && (old(dest).operator || old(dest).head != "") ==>
                removed == old(removed) && r != Ready(false) && (!r.Ready? ==> dest == old(dest))
      ensures !isolated && old(dest).Tree? ==> removed == old(removed) || removed == old(removed) + [old(dest)]
      ensures sha != "" && runId != "" && !Acquire(read, old(lock), runId).0 ==>
                r == InUse(Holder(read, old(lock))) && dest == old(dest) && lock == old(lock) && removed == old(removed)
      ensures r.InUse? ==> runId != "" && (!Acquire(read, old(lock), runId).0
                                           || (old(dest).Tree? && !Acquire(read, Locked(RunName(runId)), runId).0))
      ensures sha != "" && runId != "" && Acquire(read, old(lock), runId).0 ==>
                lock == Locked(RunName(runId)) && (ReadsBack(read, RunName(runId)) ==> Holder(read, lock) == RunName(runId))
      ensures runId == "" ==> lock == old(lock)
    {
      if sha == "" {
        return EmptySha;
      }
      RefusedKeepsLock(read, lock, runId);
      RefusedKeepsLock(read, Locked(RunName(runId)), runId);
      GrantedName(read, lock, runId);
      GrantedName(read, Locked(RunName(runId)), runId);
      hide SameCommit, ShaMatches, Acquire, Holder, RunName, Trim;
      var existedBefore := dest.Tree?;
      if dest.Tree? {
        var ended := ReuseOrClear(sha, runId);
        if ended.Some? {
          return ended.value;
        }
      }
      if runId != "" {
        var held := TakeLock(runId);
        if !held {
          return InUse(Holder(read, lock));
        }
      }
      r := Populate(sha, existedBefore);
    }
  }
}
