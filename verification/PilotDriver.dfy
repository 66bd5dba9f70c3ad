/** The host session driver (opencode-plugin/pilot-driver-core.ts): one `pilot_run` from its start
    command to the hand-off of a native Task, against an arbitrary ACP process and human. */
module PilotDriver {
  import opened Text
  import opened Lists
  import opened HostPath

  const START_ASKS := 4
  const STEP_LIMIT := 64

  datatype TaskRow = TaskRow(stub: string, sliceId: string)

  datatype HostStep = HostStep(
    kind: string, actionId: string, actorId: string, ticket: string, stub: string,
    tasks: seq<TaskRow>, waitingSlices: bool, askField: string, asks: bool)

  const NO_STEP := HostStep("", "", "", "", "", [], false, "", false)

  /** What the driver reads of an ACP answer; a missing flag is None. */
  datatype Payload = Payload(
    ok: Option<bool>, askInterrupted: bool, superseded: bool, answered: bool, needsHuman: Option<bool>,
    asks: bool, step: HostStep, status: string, hasRunId: bool, freshStart: bool, resumed: bool,
    resumedGoal: bool, skipStart: bool, workflowId: string, decision: string, nextWorkflowId: string,
    reasonCode: string, answerFromSource: bool, project: string)

  const SILENT := Payload(None, false, false, false, None, false, NO_STEP, "", false, false, false,
                          false, false, "", "", "", "", false, "")

  /** The option a human picked, never blank. */
  type Choice = s: string | s != "" witness "x"

  /** The human's answer to one question: the picked option, what it normalises to as a resume
      decision, the project it names if it is a path, and whether it is written back to ACP. */
  datatype Reply =
    | Unanswered(interrupted: bool)
    | Answered(choice: Choice, resume: string, project: string, recorded: bool)

  datatype Command =
    | Status
    | Start(workflow: string, project: string, decision: string, forceNew: bool)
    | InterpretTurn
    | Answer(value: string)
    | RunAuto(project: string)
    | Finalize(actionId: string)

  datatype Result =
    | BadArguments
    | Returned(payload: Payload)
    | StartFailed
    | Finished
    | Failed
    | ForReview
    | NotAnswered(interrupted: bool)
    | AnswerFromSource
    | QueryNotDriven
    | HandOff(ticket: string, tasks: seq<TaskRow>)
    | WaitingSlices
    | Incomplete
    | StepLimit

  datatype Arguments = Arguments(
    workflow: string, project: string, hostDirectory: string, cwd: string, forceNew: bool, testScriptRoot: string)

  predicate IsHumanDecision(p: Payload) {
    && !(p.askInterrupted || p.superseded)
    && !(p.answered && p.needsHuman == Some(false))
    && (p.needsHuman == Some(true) || p.asks || p.step.kind == "ask_human" || p.step.asks)
  }

  lemma HumanIsNotSuccess(p: Payload)
    ensures IsHumanDecision(p) ==> !IsStartSuccess(p)
  {
  }

  predicate IsStartSuccess(p: Payload) {
    && !(p.askInterrupted || p.superseded)
    && !IsHumanDecision(p)
    && p.ok != Some(false)
    && (p.ok == Some(true)
        || (p.hasRunId && (p.freshStart || p.resumed))
        || (p.hasRunId && LowerText(p.status) in {"running", "passed"}))
  }

  /** A start counts as successful exactly when nobody is asked, it was neither interrupted nor refused, and it says so
      or shows a running or finished workflow. */
  lemma StartSuccessIff(p: Payload)
    ensures IsStartSuccess(p)
            <==> && !p.askInterrupted && !p.superseded && p.ok != Some(false)
                 && ((p.answered && p.needsHuman == Some(false))
                     || (p.needsHuman != Some(true) && !p.asks && p.step.kind != "ask_human" && !p.step.asks))
                 && (p.ok == Some(true)
                     || (p.hasRunId && (p.freshStart || p.resumed
                                        || LowerText(p.status) == "running" || LowerText(p.status) == "passed")))
  {
  }

  function CanonicalWorkflow(wf: string): string {
    var w := DropLeading(Trim(JavaScript, wf), {'/'});
    if w == "auto" then "goal-intake" else w
  }

  /** Slashes and white space around a workflow's name do not matter, and `auto` is the intake. */
  lemma CanonicalNames(before: string, slashes: string, name: string, behind: string)
    requires name != "" && Trimmed(JavaScript, name) && name[0] != '/' && (forall i :: 0 <= i < |slashes| ==> slashes[i] == '/')
    requires Blank(JavaScript, before) && Blank(JavaScript, behind)
    ensures CanonicalWorkflow(before + (slashes + name) + behind) == if name == "auto" then "goal-intake" else name
  {
    TrimIs(JavaScript, before, slashes + name, behind);
    SlashesDropped(slashes, name);
    hide Trim, DropLeading;
  }

  lemma {:induction false} SlashesDropped(slashes: string, name: string)
    requires (forall i :: 0 <= i < |slashes| ==> slashes[i] == '/') && name != "" && name[0] != '/'
    ensures DropLeading(slashes + name, {'/'}) == name
  {
    if slashes == "" {
      assert slashes + name == name;
    } else {
      assert forall i :: 0 <= i < |slashes[1..]| ==> slashes[1..][i] == slashes[i + 1];
      SlashesDropped(slashes[1..], name);
      assert (slashes + name)[1..] == slashes[1..] + name;
    }
  }

  function QueryPayload(): Payload {
    SILENT.(ok := Some(true), reasonCode := "UO_QUERY_NOT_HOST_DRIVEN", step := NO_STEP.(kind := "primary_router"))
  }

  function SourcePayload(): Payload {
    SILENT.(ok := Some(true), answered := true, needsHuman := Some(false), answerFromSource := true,
            step := NO_STEP.(kind := "answer_from_source"))
  }

  function UnansweredPayload(interrupted: bool): Payload {
    if interrupted then SILENT.(ok := Some(true), askInterrupted := true, needsHuman := Some(false))
    else SILENT.(ok := Some(false), needsHuman := Some(true), step := NO_STEP.(kind := "ask_human"))
  }

  function DecisionOf(r: Reply): string
    requires r.Answered?
  {
    OrElse(r.resume, r.choice)
  }

  /** The start answers that the user wants to query instead. */
  predicate SaysQuery(p: Payload) {
    p.decision == "query" || p.nextWorkflowId == "uo-query"
  }

  /** The human picks to query instead. */
  predicate AnswersQuery(r: Reply) {
    r.Answered? && r.project == "" && DecisionOf(r) == "query"
  }

  /** The payload of a query passes every test that a switched start must pass. */
  lemma QueryLooksStarted()
    ensures IsStartSuccess(QueryPayload()) && !IsHumanDecision(QueryPayload()) && !QueryPayload().answerFromSource
  {
  }

  lemma InterruptedIsNotSuccess(p: Payload)
    ensures p.askInterrupted || p.superseded ==> !IsStartSuccess(p)
  {
  }

  lemma QueryIsReturned()
    ensures QueryPayload().step.kind == "primary_router" && SourcePayload().answerFromSource
  {
  }

  /** The payloads that end a start without success. */
  lemma OtherEndsAreNotStarted()
    ensures SourcePayload().answerFromSource
    ensures !IsStartSuccess(UnansweredPayload(true)) && !IsStartSuccess(UnansweredPayload(false))
  {
  }

  /** The start that follows a human reply: with the project it names, or for `uo-init`, or with its decision. */
  function StartAfter(r: Reply, cwd: string, workflow: string, project: string, forceNew: bool): (c: Command)
    requires r.Answered?
    ensures c.Start?
  {
    if r.project != "" then Start(workflow, Resolve(cwd, r.project), "", forceNew)
    else if DecisionOf(r) == "uo-init" then Start("uo-init", project, "", false)
    else Start(workflow, project, DecisionOf(r), forceNew)
  }

  /** A start carries what a reply said: its project, its switch to `uo-init`, or its decision. */
  predicate Carries(c: Command, r: Reply, cwd: string) {
    && c.Start? && r.Answered?
    && (|| (r.project != "" && c.project == Resolve(cwd, r.project) && c.decision == "")
        || (DecisionOf(r) == "uo-init" && c.workflow == "uo-init" && !c.forceNew && c.decision == "")
        || c.decision == DecisionOf(r))
  }

  /** Every start from a point on carries what some reply said. */
  ghost predicate StartsCarry(log: seq<Exchange>, from: nat, replies: seq<Reply>, cwd: string) {
    forall j :: from <= j < |log| && log[j].command.Start? ==>
      exists k :: 0 <= k < |replies| && Carries(log[j].command, replies[k], cwd)
  }

  lemma CarryOn(log: seq<Exchange>, longer: seq<Exchange>, from: nat, replies: seq<Reply>, more: seq<Reply>, cwd: string)
    requires StartsCarry(log, from, replies, cwd) && StartsCarry(longer, |log|, more, cwd)
    requires log <= longer && replies <= more
    ensures StartsCarry(longer, from, more, cwd)
  {
    hide Carries;
    forall j | from <= j < |longer| && longer[j].command.Start?
      ensures exists k :: 0 <= k < |more| && Carries(longer[j].command, more[k], cwd)
    {
      if j < |log| {
        assert longer[j] == log[j];
        var k :| 0 <= k < |replies| && Carries(log[j].command, replies[k], cwd);
        assert more[k] == replies[k];
      }
    }
  }

  lemma NothingCarries(log: seq<Exchange>, replies: seq<Reply>, cwd: string)
    ensures StartsCarry(log, |log|, replies, cwd)
  {
  }

  /** The start of a switch carries the reply that asked for it. */
  lemma SwitchCarries(log: seq<Exchange>, longer: seq<Exchange>, from: nat, replies: seq<Reply>, k: nat, cwd: string)
    requires from <= |log| < |longer| && log <= longer && k < |replies|
    requires forall j :: from <= j < |log| ==> !log[j].command.Start?
    requires longer[|log|].command.Start? && longer[|log|].command.workflow == "uo-init"
    requires !longer[|log|].command.forceNew && longer[|log|].command.decision == ""
    requires replies[k].Answered? && DecisionOf(replies[k]) == "uo-init"
    requires StartsCarry(longer, |log| + 1, replies, cwd)
    ensures StartsCarry(longer, from, replies, cwd)
  {
    assert forall j :: from <= j < |log| ==> longer[j] == log[j];
    assert Carries(longer[|log|].command, replies[k], cwd);
  }

  lemma NoStartsCarry(log: seq<Exchange>, from: nat, replies: seq<Reply>, cwd: string)
    requires forall j :: from <= j < |log| ==> !log[j].command.Start?
    ensures StartsCarry(log, from, replies, cwd)
  {
  }

  lemma AutoCarries(log: seq<Exchange>, longer: seq<Exchange>, from: nat, replies: seq<Reply>, cwd: string)
    requires StartsCarry(log, from, replies, cwd) && |longer| == |log| + 1 && log <= longer
    requires !longer[|log|].command.Start?
    ensures StartsCarry(longer, from, replies, cwd)
  {
    hide Carries;
    forall j | from <= j < |longer| && longer[j].command.Start?
      ensures exists k :: 0 <= k < |replies| && Carries(longer[j].command, replies[k], cwd)
    {
      assert longer[j] == log[j];
    }
  }

  lemma StartAfterCarries(r: Reply, cwd: string, workflow: string, project: string, forceNew: bool)
    requires r.Answered?
    ensures Carries(StartAfter(r, cwd, workflow, project, forceNew), r, cwd)
  {
  }

  /** The project once an answer has pinned one. */
  function Pinned(cwd: string, project: string, p: Payload): string {
    if Trim(JavaScript, p.project) == "" then project else Resolve(cwd, Trim(JavaScript, p.project))
  }

  /** A status answer that shows the workflow alive. */
  predicate SameLive(live: Payload, workflow: string) {
    && (live.workflowId == workflow || CanonicalWorkflow(live.workflowId) == CanonicalWorkflow(workflow))
    && live.status in {"running", "rework_required", "human_required"}
  }

  // ----- hand-off of a native Task

  function StubOf(row: TaskRow): seq<TaskRow> {
    var stub := Trim(JavaScript, row.stub);
    if stub == "" then [] else [row.(stub := stub)]
  }

  function Stubbed(rows: seq<TaskRow>): seq<TaskRow> {
    if rows == [] then [] else StubOf(rows[0]) + Stubbed(rows[1..])
  }

  /** The parallel Tasks of a step: at least two, or none. */
  function CompactTasks(rows: seq<TaskRow>): seq<TaskRow> {
    if |rows| < 2 then []
    else
      var out := Stubbed(rows);
      if |out| >= 2 then out else []
  }

  /** One parallel Task never comes alone, so a single Task's own stub is never used. */
  lemma NeverOneTask(rows: seq<TaskRow>)
    ensures |CompactTasks(rows)| != 1
    ensures forall t :: t in CompactTasks(rows) ==> t.stub != "" && Trimmed(JavaScript, t.stub)
    ensures |CompactTasks(rows)| <= |rows|
  {
    StubbedProperties(rows);
  }

  lemma {:induction false} StubbedProperties(rows: seq<TaskRow>)
    ensures forall t :: t in Stubbed(rows) ==> t.stub != "" && Trimmed(JavaScript, t.stub)
    ensures |Stubbed(rows)| <= |rows|
  {
    if rows == [] {
    } else {
      TrimProperties(JavaScript, rows[0].stub);
      StubbedProperties(rows[1..]);
    }
  }

  /** The rows that are kept are those with a prompt, each with its prompt trimmed, in their order. */
  lemma {:induction false} StubbedMember(rows: seq<TaskRow>, t: TaskRow)
    ensures t in Stubbed(rows) <==>
            exists i :: 0 <= i < |rows| && Trim(JavaScript, rows[i].stub) != ""
                        && t == TaskRow(Trim(JavaScript, rows[i].stub), rows[i].sliceId)
  {
    hide Trim;
    if rows == [] {
    } else {
      StubbedMember(rows[1..], t);
      if i :| 0 <= i < |rows| && Trim(JavaScript, rows[i].stub) != ""
              && t == TaskRow(Trim(JavaScript, rows[i].stub), rows[i].sliceId) {
        assert i > 0 ==> rows[1..][i - 1] == rows[i];
      }
      if i :| 0 <= i < |rows[1..]| && Trim(JavaScript, rows[1..][i].stub) != ""
              && t == TaskRow(Trim(JavaScript, rows[1..][i].stub), rows[1..][i].sliceId) {
        assert rows[i + 1] == rows[1..][i];
      }
    }
  }

  /** The Tasks of a longer list are those of its parts, in order. */
  lemma {:induction false} StubbedConcat(a: seq<TaskRow>, b: seq<TaskRow>)
    ensures Stubbed(a + b) == Stubbed(a) + Stubbed(b)
  {
    if a == [] {
      assert a + b == b;
    } else {
      StubbedConcat(a[1..], b);
      assert (a + b)[1..] == a[1..] + b;
      StubbedStep(a);
      StubbedStep(a + b);
      hide Stubbed, StubOf;
      Regroup(StubOf(a[0]), Stubbed(a[1..]), Stubbed(b));
    }
  }

  lemma StubbedStep(rows: seq<TaskRow>)
    requires rows != []
    ensures Stubbed(rows) == StubOf(rows[0]) + Stubbed(rows[1..])
  {
  }

  lemma Regroup(a: seq<TaskRow>, b: seq<TaskRow>, c: seq<TaskRow>)
    ensures a + (b + c) == a + b + c
  {
  }

  function HandOffOf(step: HostStep): Result {
    var tasks := CompactTasks(step.tasks);
    var sliceStub := if |tasks| == 1 then Trim(JavaScript, tasks[0].stub) else "";
    var stub := OrElse(Trim(JavaScript, step.stub), sliceStub);
    var ticket := Trim(JavaScript, step.ticket);
    if step.waitingSlices && stub == "" && tasks == [] then WaitingSlices
    else if Trim(JavaScript, step.actorId) == "" || ticket == "" || (stub == "" && |tasks| < 2) then Incomplete
    else HandOff(ticket, tasks)
  }

  /** A step is handed off exactly when it names an actor and a ticket and has something to send:
      its own prompt, or two Tasks or more with prompts. */
  lemma HandOffIff(step: HostStep)
    ensures HandOffOf(step).HandOff? <==>
              && Trim(JavaScript, step.actorId) != "" && Trim(JavaScript, step.ticket) != ""
              && (Trim(JavaScript, step.stub) != "" || (|step.tasks| >= 2 && |Stubbed(step.tasks)| >= 2))
    ensures HandOffOf(step).HandOff? ==> HandOffOf(step).ticket == Trim(JavaScript, step.ticket) != ""
    ensures HandOffOf(step).HandOff? ==>
              HandOffOf(step).tasks == if |step.tasks| >= 2 && |Stubbed(step.tasks)| >= 2 then Stubbed(step.tasks) else []
    ensures HandOffOf(step).WaitingSlices? <==>
              && step.waitingSlices && Trim(JavaScript, step.stub) == ""
              && (|step.tasks| < 2 || |Stubbed(step.tasks)| < 2)
    ensures HandOffOf(step).HandOff? || HandOffOf(step).WaitingSlices? || HandOffOf(step).Incomplete?
  {
    NeverOneTask(step.tasks);
  }

  /** The ends of a run that do not come out of a dispatch step or of the step limit. */
  predicate EndsEarly(r: Result) {
    !r.HandOff? && !r.Incomplete? && !r.StepLimit?
  }

  // ----- what the exchanges with ACP may contain

  /** A forced start at once, or a status, and a start of this workflow and project unless it is found alive. */
  predicate OpensWith(workflow: string, project: string, forceNew: bool, log: seq<Exchange>) {
    && log != []
    && (forceNew ==> log[0].command == Start(workflow, project, "", true))
    && (!forceNew ==>
          && log[0].command == Status
          && (|| ((log[0].reply.status == "running" || log[0].reply.status == "rework_required"
                   || log[0].reply.status == "human_required")
                  && CanonicalWorkflow(log[0].reply.workflowId) == CanonicalWorkflow(workflow))
              || (|log| > 1 && log[1].command == Start(workflow, project, "", false))))
  }

  /** A result that a step decides comes from the last drive, which was of the current project. */
  predicate FitsLastStep(r: Result, log: seq<Exchange>, project: string) {
    && !r.StepLimit? && !r.BadArguments?
    && (r.HandOff? || r.WaitingSlices? || r.Incomplete? || r.ForReview? || r.Finished? ==>
          && log != [] && log[|log| - 1].command == RunAuto(project)
          && var step := log[|log| - 1].reply.step;
             && (r.Finished? ==> step.kind == "done" || step.kind == "continue_goal")
             && (r.ForReview? ==> step.kind == "primary_review")
             && (r.HandOff? || r.WaitingSlices? || r.Incomplete? ==>
                   step.kind == "dispatch_subagent" && r == HandOffOf(step)))
  }

  datatype Exchange = Exchange(command: Command, reply: Payload)

  function Autos(log: seq<Exchange>): nat {
    if log == [] then 0
    else Autos(log[..|log| - 1]) + if log[|log| - 1].command.RunAuto? then 1 else 0
  }

  lemma AutosAppend(log: seq<Exchange>, x: Exchange)
    ensures Autos(log + [x]) == Autos(log) + if x.command.RunAuto? then 1 else 0
  {
    assert (log + [x])[..|log|] == log;
  }

  predicate StartSucceeded(x: Exchange) {
    x.command.Start? && IsStartSuccess(x.reply)
  }

  predicate NoneStarted(log: seq<Exchange>) {
    forall i :: 0 <= i < |log| ==> !StartSucceeded(log[i])
  }

  /** The driver found the workflow alive instead of starting it, or a start succeeded. */
  predicate Began(log: seq<Exchange>) {
    || (log != [] && log[0].command == Status
        && log[0].reply.status in {"running", "rework_required", "human_required"})
    || !NoneStarted(log)
  }

  /** No start issued after a successful one throws the existing state away. */
  predicate NoForceAfterSuccess(log: seq<Exchange>) {
    forall i, j :: 0 <= i < j < |log| && StartSucceeded(log[i]) && log[j].command.Start? ==>
      !log[j].command.forceNew
  }

  /** Nothing is driven before a start succeeded or a live workflow was found. */
  predicate DrivenOnlyAfterStart(log: seq<Exchange>) {
    forall j :: 0 <= j < |log| && log[j].command.RunAuto? ==> Began(log[..j])
  }

  predicate Safe(log: seq<Exchange>) {
    NoForceAfterSuccess(log) && DrivenOnlyAfterStart(log)
  }

  lemma SafeParts(log: seq<Exchange>)
    requires Safe(log)
    ensures NoForceAfterSuccess(log) && DrivenOnlyAfterStart(log)
  {
  }

  lemma NothingIsSafe()
    ensures Safe([]) && Autos([]) == 0
  {
  }

  lemma SafeAppend(log: seq<Exchange>, x: Exchange)
    requires Safe(log)
    requires x.command.Start? && x.command.forceNew ==> NoneStarted(log)
    requires x.command.RunAuto? ==> Began(log)
    ensures Safe(log + [x])
  {
    var longer := log + [x];
    hide Began;
    forall j | 0 <= j < |longer| && longer[j].command.RunAuto? ensures Began(longer[..j]) {
      if j < |log| {
        assert longer[..j] == log[..j];
      } else {
        assert longer[..j] == log;
      }
    }
  }

  lemma UnansweredIsNoQuery(r: Reply)
    requires r.Unanswered?
    ensures !AnswersQuery(r)
  {
  }

  /** A start whose answer asks the human has not succeeded. */
  lemma NoneStartedYet(log: seq<Exchange>, forceNew: bool)
    requires log != [] && !IsStartSuccess(log[|log| - 1].reply)
    requires forceNew ==> NoneStarted(log[..|log| - 1])
    ensures forceNew ==> NoneStarted(log)
  {
    hide IsStartSuccess;
  }

  lemma BeganMonotone(a: seq<Exchange>, b: seq<Exchange>)
    requires a <= b && Began(a)
    ensures Began(b)
  {
    if !NoneStarted(a) {
      var i :| 0 <= i < |a| && StartSucceeded(a[i]);
      assert StartSucceeded(b[i]);
    }
  }

  /** One `pilot_run`. What ACP and the human answer is arbitrary, whatever was asked before. */
  class Run {
    const cwd: string
    var workflow: string
    var project: string
    var forceNew: bool
    var log: seq<Exchange>
    var remembered: seq<string>
    ghost var replies: seq<Reply>

    constructor (cwd: string)
      ensures this.cwd == cwd && log == [] && remembered == [] && replies == []
    {
      this.cwd := cwd;
      workflow, project, forceNew, log, remembered := "", "", false, [], [];
      replies := [];
    }

    method Issue(c: Command) returns (p: Payload)
      requires Safe(log)
      requires c.Start? && c.forceNew ==> NoneStarted(log)
      requires c.RunAuto? ==> Began(log)
      modifies this`log
      ensures log == old(log) + [Exchange(c, p)]
      ensures Safe(log)
      ensures Autos(log) == Autos(old(log)) + if c.RunAuto? then 1 else 0
    {
      p := *;
      AutosAppend(log, Exchange(c, p));
      SafeAppend(log, Exchange(c, p));
      log := log + [Exchange(c, p)];
    }

    method AdoptPinned(p: Payload)
      modifies this`project
      ensures project == Pinned(cwd, old(project), p)
      ensures Trim(JavaScript, p.project) == "" ==> project == old(project)
      ensures Trim(JavaScript, p.project) != "" ==> project == Resolve(cwd, Trim(JavaScript, p.project))
    {
      var pinned := Trim(JavaScript, p.project);
      if pinned != "" {
        project := Resolve(cwd, pinned);
      }
    }

    method StartOnce(decision: string) returns (p: Payload)
      requires Safe(log)
      requires forceNew ==> NoneStarted(log)
      modifies this`log
      ensures log == old(log) + [Exchange(Start(workflow, project, decision, forceNew), p)]
      ensures Safe(log) && Autos(log) == Autos(old(log))
    {
      p := Issue(Start(workflow, project, decision, forceNew));
    }

    /** Asks the human; an answer to a numbered request is written back. */
    method Ask() returns (r: Reply)
      requires Safe(log)
      modifies this`log, this`replies
      ensures replies == old(replies) + [r]
      ensures r.Answered? && r.recorded ==>
                |log| == |old(log)| + 1 && old(log) < log && log[|old(log)|].command == Answer(r.choice)
      ensures !(r.Answered? && r.recorded) ==> log == old(log)
      ensures Safe(log) && Autos(log) == Autos(old(log))
      ensures NoneStarted(old(log)) ==> NoneStarted(log)
    {
      r := *;
      replies := replies + [r];
      if r.Answered? && r.recorded {
        var p := Issue(Answer(r.choice));
      }
    }

    /** What the answer to a start's question leads to: an end, or another start. */
    method ActOnStartAnswer(reply: Reply) returns (ended: bool, payload: Payload)
      requires Safe(log) && reply.Answered?
      requires forceNew ==> NoneStarted(log)
      modifies this`log, this`workflow, this`project, this`forceNew
      ensures ended ==> log == old(log) && payload == if AnswersQuery(reply) then QueryPayload() else SourcePayload()
      ensures AnswersQuery(reply) ==> ended
      ensures !ended ==> |log| == |old(log)| + 1 && old(log) == log[..|old(log)|]
                         && payload == log[|old(log)|].reply
                         && log[|old(log)|].command
                            == StartAfter(reply, cwd, old(workflow), old(project), old(forceNew))
                         && workflow == log[|old(log)|].command.workflow && project == log[|old(log)|].command.project
                         && forceNew == log[|old(log)|].command.forceNew
      ensures !ended && reply.project != "" ==>
                log[|old(log)|].command == Start(old(workflow), Resolve(cwd, reply.project), "", old(forceNew))
      ensures var said := if reply.resume != "" then reply.resume else reply.choice;
              && (ended <==> reply.project == "" && (said == "query" || said == "source"))
              && (!ended && reply.project == "" && said == "uo-init" ==>
                    log[|old(log)|].command == Start("uo-init", old(project), "", false))
              && (!ended && reply.project == "" && said != "uo-init" ==>
                    log[|old(log)|].command == Start(old(workflow), old(project), said, old(forceNew)))
      ensures Safe(log) && Autos(log) == Autos(old(log))
      ensures forceNew ==> old(forceNew)
    {
      ended := false;
      var decision := DecisionOf(reply);
      if reply.project != "" {
        project := Resolve(cwd, reply.project);
        payload := StartOnce("");
      } else if decision == "query" {
        return true, QueryPayload();
      } else if decision == "uo-init" {
        workflow, forceNew := "uo-init", false;
        payload := StartOnce("");
      } else if decision == "source" {
        return true, SourcePayload();
      } else {
        payload := StartOnce(decision);
      }
    }

    /** One question of a start and what its answer leads to. */
    method AskRound(payload: Payload) returns (ended: bool, next: Payload)
      requires Safe(log) && log != [] && IsHumanDecision(payload)
      requires log[|log| - 1].command.Start? && payload == log[|log| - 1].reply
      requires forceNew ==> NoneStarted(log[..|log| - 1])
      modifies this`log, this`workflow, this`project, this`forceNew, this`replies
      ensures Safe(log) && old(log) <= log && |log| <= |old(log)| + 2
      ensures Autos(log) == Autos(old(log))
      ensures forceNew ==> old(forceNew)
      ensures |replies| == |old(replies)| + 1 && old(replies) <= replies
      ensures if ended then
                if AnswersQuery(replies[|replies| - 1]) then next == QueryPayload()
                else next in {SourcePayload(), UnansweredPayload(true), UnansweredPayload(false)}
              else
                && !AnswersQuery(replies[|replies| - 1]) && replies[|replies| - 1].Answered?
                && log[|log| - 1].command
                   == StartAfter(replies[|replies| - 1], cwd, old(workflow), Pinned(cwd, old(project), payload), old(forceNew))
                && next == log[|log| - 1].reply && |log| > |old(log)|
                && (forceNew ==> NoneStarted(log[..|log| - 1]))
                && (replies[|replies| - 1].recorded ==>
                      |log| == |old(log)| + 2 && log[|old(log)|].command == Answer(replies[|replies| - 1].choice))
      ensures StartsCarry(log, |old(log)|, replies, cwd)
    {
      hide Carries;
      hide Safe, Resolve, Trim, Autos, QueryPayload, SourcePayload, UnansweredPayload, IsStartSuccess, IsHumanDecision,
           AnswersQuery, NoneStarted;
      HumanIsNotSuccess(payload);
      NoneStartedYet(log, forceNew);
      AdoptPinned(payload);
      var reply := Ask();
      if reply.Unanswered? {
        UnansweredIsNoQuery(reply);
        return true, UnansweredPayload(reply.interrupted);
      }
      ghost var wf, pr, force := workflow, project, forceNew;
      ended, next := ActOnStartAnswer(reply);
      StartAfterCarries(reply, cwd, wf, pr, force);
    }

    /** Answers the questions a start asks, starting again after each answer, at most four times. It gives
        the payload of a query exactly when the first answer of ACP says so or the last human reply does. */
    method ConsumeStartAsks(initial: Payload) returns (payload: Payload)
      requires Safe(log) && log != []
      requires log[|log| - 1].command.Start? && initial == log[|log| - 1].reply
      requires forceNew ==> NoneStarted(log[..|log| - 1])
      modifies this`log, this`workflow, this`project, this`forceNew, this`replies
      ensures Safe(log) && old(log) <= log && |log| <= |old(log)| + 2 * START_ASKS
      ensures Autos(log) == Autos(old(log))
      ensures forceNew ==> old(forceNew)
      ensures old(replies) <= replies
      ensures if SaysQuery(initial) || (|replies| > |old(replies)| && AnswersQuery(replies[|replies| - 1])) then
                payload == QueryPayload()
              else
                payload in {SourcePayload(), UnansweredPayload(true), UnansweredPayload(false)}
                || (log[|log| - 1].command.Start? && payload == log[|log| - 1].reply)
      ensures StartsCarry(log, |old(log)|, replies, cwd)
    {
      hide StartsCarry, StartAfter;
      hide Safe, Resolve, Trim, Autos, QueryPayload, SourcePayload, UnansweredPayload, IsStartSuccess, IsHumanDecision,
           AnswersQuery, NoneStarted;
      payload := initial;
      AdoptPinned(payload);
      if payload.decision == "query" || payload.nextWorkflowId == "uo-query" {
        NothingCarries(log, replies, cwd);
        return QueryPayload();
      }
      var i := 0;
      NothingCarries(log, replies, cwd);
      while i < START_ASKS && IsHumanDecision(payload)
        invariant 0 <= i <= START_ASKS
        invariant Safe(log) && old(log) <= log && log != [] && |log| <= |old(log)| + 2 * i
        invariant log[|log| - 1].command.Start? && payload == log[|log| - 1].reply
        invariant forceNew ==> NoneStarted(log[..|log| - 1])
        invariant Autos(log) == Autos(old(log))
        invariant forceNew ==> old(forceNew)
        invariant old(replies) <= replies
        invariant |replies| > |old(replies)| ==> !AnswersQuery(replies[|replies| - 1])
        invariant StartsCarry(log, |old(log)|, replies, cwd)
      {
        ghost var log0, replies0 := log, replies;
        i := i + 1;
        var ended: bool;
        ended, payload := AskRound(payload);
        CarryOn(log0, log, |old(log)|, replies0, replies, cwd);
        if ended {
          return;
        }
      }
    }

    /** The answer that stands for a workflow found alive; the user's test scripts are passed on. */
    method Resume(a: Arguments, live: Payload) returns (started: Payload)
      requires Safe(log) && |log| == 1 && Autos(log) == 0
      modifies this`log
      ensures Safe(log) && |log| == (if a.testScriptRoot != "" then 2 else 1) && Autos(log) == 0 && old(log) <= log
      ensures |log| == 2 ==> log[1].command == InterpretTurn
      ensures started == SILENT.(ok := Some(true), resumed := true, skipStart := true, status := live.status,
                                 workflowId := OrElse(live.workflowId, workflow))
    {
      hide Safe;
      started := SILENT.(ok := Some(true), resumed := true, skipStart := true, status := live.status,
                         workflowId := OrElse(live.workflowId, workflow));
      if a.testScriptRoot != "" {
        var ignored := Issue(InterpretTurn);
      }
    }

    /** Starts the workflow and answers what the start asks. */
    method StartAnew() returns (started: Payload)
      requires Safe(log) && |log| <= 1 && Autos(log) == 0
      requires forceNew ==> NoneStarted(log)
      modifies this`log, this`workflow, this`project, this`forceNew, this`replies
      ensures Safe(log) && |log| <= 2 + 2 * START_ASKS && Autos(log) == 0
      ensures IsStartSuccess(started) && started != QueryPayload() && started != SourcePayload() ==> Began(log)
      ensures old(log) < log && log[|old(log)|].command == Start(old(workflow), old(project), "", old(forceNew))
      ensures StartsCarry(log, |old(log)| + 1, replies, cwd)
    {
      hide Safe, QueryPayload, SourcePayload, UnansweredPayload, IsHumanDecision, IsStartSuccess, AnswersQuery, SaysQuery,
           StartsCarry;
      ghost var before := log;
      var first := StartOnce("");
      assert log[..|log| - 1] == before;
      started := ConsumeStartAsks(first);
      OtherEndsAreNotStarted();
      assert StartSucceeded(log[|log| - 1]) ==> Began(log);
    }

    /** Starts the workflow, or leaves it running when it is found alive. A forced start asks nothing first; otherwise the
        status decides, and a workflow found alive under this name is not started. */
    method StartOrResume(a: Arguments) returns (started: Payload)
      requires log == []
      modifies this`log, this`workflow, this`project, this`forceNew, this`replies
      ensures Safe(log) && |log| <= 2 + 2 * START_ASKS && Autos(log) == 0 && log != []
      ensures IsStartSuccess(started) && started != QueryPayload() && started != SourcePayload() ==> Began(log)
      ensures a.forceNew ==> log[0].command == Start(old(workflow), old(project), "", true)
      ensures !a.forceNew ==> log[0].command == Status
      ensures var live := log[0].reply;
              !a.forceNew ==>
                if (live.workflowId == old(workflow) || CanonicalWorkflow(live.workflowId) == CanonicalWorkflow(old(workflow)))
                   && (live.status == "running" || live.status == "rework_required" || live.status == "human_required")
                then
                  && (forall j :: 0 <= j < |log| ==> !log[j].command.Start?)
                  && |log| == (if a.testScriptRoot != "" then 2 else 1)
                  && started.ok == Some(true) && started.skipStart && started.status == live.status
                  && started.workflowId == (if live.workflowId != "" then live.workflowId else old(workflow))
                else |log| > 1 && log[1].command == Start(old(workflow), old(project), "", false)
      ensures StartsCarry(log, if a.forceNew then 1 else 2, replies, cwd)
    {
      hide Safe, QueryPayload, SourcePayload, CanonicalWorkflow, IsHumanDecision, IsStartSuccess, Carries;
      forceNew := a.forceNew;
      NothingIsSafe();
      if forceNew {
        started := StartAnew();
      } else {
        var live := Issue(Status);
        if SameLive(live, workflow) {
          started := Resume(a, live);
        } else {
          started := StartAnew();
        }
      }
    }

    /** The workflow and the project a run is asked for, and whether they can be run at all. */
    function Asked(a: Arguments): (string, string) {
      (CanonicalWorkflow(Trim(JavaScript, a.workflow)),
       if Trim(JavaScript, a.project) != "" then Resolve(cwd, Trim(JavaScript, a.project))
       else Resolve(cwd, Trim(JavaScript, a.hostDirectory)))
    }

    predicate CannotRun(a: Arguments) {
      Asked(a).0 == "" || (Trim(JavaScript, a.project) == "" && Trim(JavaScript, a.hostDirectory) == "")
    }

    /** White space around what the user asks for does not matter; the host's directory stands in for a project; and
        without either, or without a workflow, nothing is run. */
    lemma AskedIs(a: Arguments, before: string, dir: string, behind: string)
      requires Blank(JavaScript, before) && Blank(JavaScript, behind) && Canonical(dir)
      ensures a.project == before + dir + behind ==> Asked(a).1 == dir
      ensures Blank(JavaScript, a.project) && a.hostDirectory == before + dir + behind ==> Asked(a).1 == dir
      ensures CannotRun(a) <==>
                || CanonicalWorkflow(Trim(JavaScript, a.workflow)) == ""
                || (Blank(JavaScript, a.project) && Blank(JavaScript, a.hostDirectory))
    {
      TrimIs(JavaScript, before, dir, behind);
      BlankIff(JavaScript, a.project);
      BlankIff(JavaScript, a.hostDirectory);
      hide Trim, CanonicalWorkflow, Clean, IsSpace;
    }

    /** The first commands of a run are those that the user asked for. */
    ghost predicate OpensAsAsked(a: Arguments, log: seq<Exchange>) {
      OpensWith(Asked(a).0, Asked(a).1, a.forceNew, log)
    }

    /** What the answer to the start means for the run: it is returned, it has failed, or the run may be driven. */
    method Judge(started: Payload) returns (ended: Option<Result>)
      modifies this`workflow, this`project, this`forceNew
      ensures ended.None? ==> !forceNew && IsStartSuccess(started)
                              && started != QueryPayload() && started != SourcePayload()
      ensures ended in {None, Some(Returned(started)), Some(StartFailed)}
      ensures ended.None? <==> && IsStartSuccess(started) && !started.answerFromSource
                               && started.step.kind !in {"answer_from_source", "primary_router"}
                               && started.reasonCode != "UO_QUERY_NOT_HOST_DRIVEN"
    {
      QueryIsReturned();
      HumanIsNotSuccess(started);
      InterruptedIsNotSuccess(started);
      hide IsStartSuccess, IsHumanDecision, QueryPayload, SourcePayload, Trim, Resolve;
      var next := Trim(JavaScript, started.workflowId);
      if (started.resumedGoal || (started.skipStart && next != "")) && next !in {"", "auto", "goal-intake"} {
        workflow := next;
      }
      AdoptPinned(started);
      if started.answerFromSource || started.step.kind == "answer_from_source" {
        return Some(Returned(started));
      }
      if started.step.kind == "primary_router" || started.reasonCode == "UO_QUERY_NOT_HOST_DRIVEN" {
        return Some(Returned(started));
      }
      if started.askInterrupted || started.superseded || IsHumanDecision(started) {
        return Some(Returned(started));
      }
      if !IsStartSuccess(started) {
        return Some(StartFailed);
      }
      forceNew := false;
      return None;
    }

    /** Starts the workflow and judges the answer. */
    method StartAndJudge(a: Arguments) returns (ended: Option<Result>)
      requires log == []
      modifies this`log, this`workflow, this`project, this`forceNew, this`replies
      ensures Safe(log) && |log| <= 2 + 2 * START_ASKS && Autos(log) == 0
      ensures ended.None? ==> !forceNew && Began(log)
      ensures OpensWith(old(workflow), old(project), a.forceNew, log)
      ensures StartsCarry(log, if a.forceNew then 1 else 2, replies, cwd)
      ensures ended.Some? ==> ended.value == StartFailed || ended.value.Returned?
    {
      hide StartsCarry, CanonicalWorkflow, Safe, Began, IsStartSuccess, QueryPayload, SourcePayload, Autos;
      var started := StartOrResume(a);
      ended := Judge(started);
    }

    /** Checks the arguments and starts. A result ends the run; otherwise it may be driven. */
    method Begin(a: Arguments) returns (ended: Option<Result>)
      requires log == [] && remembered == []
      modifies this`log, this`workflow, this`project, this`forceNew, this`replies
      ensures Safe(log) && |log| <= 2 + 2 * START_ASKS && Autos(log) == 0
      ensures ended.None? ==> !forceNew && Began(log)
      ensures ended.Some? ==> EndsEarly(ended.value)
      ensures ended == Some(BadArguments) <==> CannotRun(a)
      ensures CannotRun(a) ==> log == []
      ensures !CannotRun(a) && Asked(a).0 == "uo-query" ==> log == [] && ended == Some(QueryNotDriven)
      ensures !CannotRun(a) && Asked(a).0 != "uo-query" ==> OpensAsAsked(a, log)
      ensures StartsCarry(log, if a.forceNew then 1 else 2, replies, cwd)
      ensures ended.Some? ==> ended.value in {BadArguments, QueryNotDriven, StartFailed} || ended.value.Returned?
    {
      hide Carries, CanonicalWorkflow, Trim, Resolve, Safe, Began, OpensWith;
      NothingIsSafe();
      workflow := CanonicalWorkflow(Trim(JavaScript, a.workflow));
      project := Trim(JavaScript, a.project);
      if workflow == "" {
        return Some(BadArguments);
      }
      if project == "" {
        project := Trim(JavaScript, a.hostDirectory);
        if project == "" {
          return Some(BadArguments);
        }
      }
      project := Resolve(cwd, project);
      if workflow == "uo-query" {
        return Some(QueryNotDriven);
      }
      ended := StartAndJudge(a);
    }

    /** The start of `uo-init` that a drive switches to, and what its answer leads to: the drive goes on when
        that answer passes as a success. The payload of a query passes, so the drive also goes on when ACP
        or the human answered the switch with a query. */
    method SwitchToInit() returns (ended: Option<Result>)
      requires Safe(log) && !forceNew
      modifies this`log, this`workflow, this`project, this`forceNew, this`replies
      ensures Safe(log) && !forceNew && old(log) < log && |log| <= |old(log)| + 1 + 2 * START_ASKS
      ensures Autos(log) == Autos(old(log)) && old(replies) <= replies
      ensures ended.Some? ==> EndsEarly(ended.value)
      ensures log[|old(log)|].command == Start("uo-init", old(project), "", false)
      ensures StartsCarry(log, |old(log)| + 1, replies, cwd)
      ensures ended.Some? ==> ended.value == Failed || ended.value.Returned?
      ensures var queried := SaysQuery(log[|old(log)|].reply)
                             || (|replies| > |old(replies)| && AnswersQuery(replies[|replies| - 1]));
              && (queried ==> ended.None?)
              && (ended.None? && !queried ==> StartSucceeded(log[|log| - 1]))
              && (NoneStarted(log[|old(log)|..]) ==> (ended.None? <==> queried))
    {
      hide Safe, Resolve, Trim, Autos, QueryPayload, SourcePayload, UnansweredPayload, IsStartSuccess, IsHumanDecision,
           AnswersQuery, SaysQuery, StartsCarry;
      workflow, forceNew := "uo-init", false;
      var first := StartOnce("");
      var switched := ConsumeStartAsks(first);
      QueryLooksStarted();
      OtherEndsAreNotStarted();
      assert log[|old(log)|..][|log| - 1 - |old(log)|] == log[|log| - 1];
      if switched.answerFromSource || IsHumanDecision(switched) {
        return Some(Returned(switched));
      }
      if !IsStartSuccess(switched) {
        return Some(Failed);
      }
      return None;
    }

    /** Closes the action that asked, unless the decision restarts or goes on by itself. */
    method FinalizeAsk(step: HostStep, decision: string) returns (ended: Option<Result>)
      requires Safe(log)
      modifies this`log
      ensures Safe(log) && Autos(log) == Autos(old(log))
      ensures if step.actionId != "" && step.actionId != "repo_scan" && step.askField != "test_script_root"
                 && decision != "reinit" && decision != "continue" then
                && |log| == |old(log)| + 1 && old(log) < log && log[|old(log)|].command == Finalize(step.actionId)
                && ended == if log[|old(log)|].reply.ok == Some(false) then Some(Failed) else None
              else log == old(log) && ended.None?
    {
      hide Safe;
      var skip := step.askField == "test_script_root" || step.actionId == "repo_scan";
      if step.actionId != "" && decision != "reinit" && decision != "continue" && !skip {
        var fin := Issue(Finalize(step.actionId));
        if fin.ok == Some(false) {
          return Some(Failed);
        }
      }
      return None;
    }

    /** What a question inside the drive leads to: an end of the run, or another round. */
    method AnswerDriveAsk(step: HostStep) returns (ended: Option<Result>)
      requires Safe(log) && !forceNew && log != []
      modifies this`log, this`workflow, this`project, this`forceNew, this`replies
      ensures Safe(log) && !forceNew && old(log) <= log
      ensures |log| <= |old(log)| + 2 + 2 * START_ASKS
      ensures Autos(log) == Autos(old(log))
      ensures ended.Some? ==> EndsEarly(ended.value)
      ensures ended.Some? ==> ended.value in {AnswerFromSource, QueryNotDriven, Failed}
                              || ended.value.NotAnswered? || ended.value.Returned?
      ensures |replies| > |old(replies)| && old(replies) <= replies
      ensures StartsCarry(log, |old(log)|, replies, cwd)
      ensures var reply := replies[|old(replies)|];
              var at := |old(log)| + if reply.Answered? && reply.recorded then 1 else 0;
              && at <= |log|
              && (reply.Answered? && reply.recorded ==> log[|old(log)|].command == Answer(reply.choice))
              && (reply.Unanswered? ==> ended == Some(NotAnswered(reply.interrupted)))
              && (reply.Answered? && DecisionOf(reply) == "source" ==> ended == Some(AnswerFromSource))
              && (reply.Answered? && DecisionOf(reply) == "query" ==> ended == Some(QueryNotDriven))
              && (reply.Answered? && DecisionOf(reply) == "uo-init" ==>
                    && at < |log| && log[at].command == Start("uo-init", old(project), "", false)
                    && (NoneStarted(log[at..]) ==>
                          (ended.None? <==> SaysQuery(log[at].reply)
                                            || (|replies| > |old(replies)| + 1 && AnswersQuery(replies[|replies| - 1])))))
              && (reply.Answered? && DecisionOf(reply) !in {"source", "query", "uo-init"} ==>
                    if step.actionId != "" && step.actionId != "repo_scan" && step.askField != "test_script_root"
                       && DecisionOf(reply) != "reinit" && DecisionOf(reply) != "continue" then
                      && |log| == at + 1 && log[at].command == Finalize(step.actionId)
                      && ended == if log[at].reply.ok == Some(false) then Some(Failed) else None
                    else |log| == at && ended.None?)
    {
      hide Safe, Resolve, Trim, Autos, QueryPayload, SourcePayload, UnansweredPayload, IsStartSuccess, IsHumanDecision,
           AnswersQuery, SaysQuery, NoneStarted, StartSucceeded, StartsCarry, DecisionOf;
      var reply := Ask();
      NoStartsCarry(log, |old(log)|, replies, cwd);
      if reply.Unanswered? {
        return Some(NotAnswered(reply.interrupted));
      }
      var decision := DecisionOf(reply);
      if decision == "source" {
        return Some(AnswerFromSource);
      }
      if decision == "uo-init" {
        ghost var log0 := log;
        ended := SwitchToInit();
        SwitchCarries(log0, log, |old(log)|, replies, |old(replies)|, cwd);
        return;
      }
      if decision == "query" {
        return Some(QueryNotDriven);
      }
      ended := FinalizeAsk(step, decision);
      NoStartsCarry(log, |old(log)|, replies, cwd);
    }

    /** Hands the step over to a native Task and remembers its ticket, or says why not. */
    method HandOver(step: HostStep) returns (r: Result)
      modifies this`remembered
      ensures r == HandOffOf(step)
      ensures remembered == if r.HandOff? then old(remembered) + [r.ticket] else old(remembered)
    {
      r := HandOffOf(step);
      if r.HandOff? {
        remembered := remembered + [r.ticket];
      }
    }

    /** What a round of the drive needs to know of a question. */
    method AskInRound(step: HostStep) returns (stop: Option<Result>)
      requires Safe(log) && Began(log) && !forceNew && log != []
      modifies this`log, this`workflow, this`project, this`forceNew, this`replies
      ensures Safe(log) && Began(log) && !forceNew && old(log) <= log && old(replies) <= replies
      ensures |log| <= |old(log)| + 2 + 2 * START_ASKS && Autos(log) == Autos(old(log))
      ensures StartsCarry(log, |old(log)|, replies, cwd)
      ensures stop.Some? ==> FitsLastStep(stop.value, log, project) && !stop.value.HandOff?
    {
      hide Began, Safe, StartsCarry, Autos;
      stop := AnswerDriveAsk(step);
      BeganMonotone(old(log), log);
    }

    /** One drive and what its step leads to: an end of the run that fits the step, or another round. */
    method Round() returns (stop: Option<Result>)
      requires Safe(log) && Began(log) && !forceNew && remembered == []
      modifies this
      ensures Safe(log) && Began(log) && !forceNew && old(log) <= log && old(replies) <= replies
      ensures |log| <= |old(log)| + 3 + 2 * START_ASKS && Autos(log) == Autos(old(log)) + 1
      ensures StartsCarry(log, |old(log)|, replies, cwd)
      ensures stop.None? || !stop.value.HandOff? ==> remembered == []
      ensures stop.Some? ==> FitsLastStep(stop.value, log, project)
      ensures stop.Some? && stop.value.HandOff? ==> remembered == [stop.value.ticket] && stop.value.ticket != ""
    {
      hide HandOffOf, IsHumanDecision, IsStartSuccess, Began, Safe, StartsCarry, Autos;
      var driven := Issue(RunAuto(project));
      ghost var log1 := log;
      NoStartsCarry(log1, |old(log)|, replies, cwd);
      BeganMonotone(old(log), log);
      var step := driven.step;
      if step.kind == "" && IsHumanDecision(driven) {
        step := NO_STEP.(kind := "ask_human");
      }
      if step.kind == "continue_goal" || step.kind == "done" {
        return Some(Finished);
      } else if step.kind == "primary_review" {
        return Some(ForReview);
      } else if step.kind == "ask_human" {
        stop := AskInRound(step);
        CarryOn(log1, log, |old(log)|, old(replies), replies, cwd);
        return;
      } else if step.kind != "dispatch_subagent" {
        return Some(Failed);
      } else {
        HandOffIff(step);
        var r := HandOver(step);
        return Some(r);
      }
    }

    /** A whole run. For every behaviour of ACP and of the human: it opens with the commands the user asked for, a
        forced start included; every later start carries what some reply said; no start forces a new state after a
        successful one; nothing is driven before a start succeeded or a live workflow was found; at most 64 drives and
        714 commands are issued; the only ticket ever remembered is the one handed over, which is the ticket of the
        last drive's own dispatch step; and the result fits the last step. */
    method Drive(a: Arguments) returns (r: Result)
      requires log == [] && remembered == []
      modifies this
      ensures r.BadArguments? <==> CannotRun(a)
      ensures CannotRun(a) || Asked(a).0 == "uo-query" ==> log == []
      ensures !CannotRun(a) && Asked(a).0 == "uo-query" ==> r == QueryNotDriven
      ensures !CannotRun(a) && Asked(a).0 != "uo-query" ==> OpensAsAsked(a, log)
      ensures StartsCarry(log, if a.forceNew then 1 else 2, replies, cwd)
      ensures NoForceAfterSuccess(log) && DrivenOnlyAfterStart(log)
      ensures Autos(log) <= STEP_LIMIT
      ensures |log| <= 10 + 11 * STEP_LIMIT
      ensures r.HandOff? ==> remembered == [r.ticket] && r.ticket != ""
      ensures !r.HandOff? ==> remembered == []
      ensures r.StepLimit? ==> Autos(log) == STEP_LIMIT
      ensures r.HandOff? || r.WaitingSlices? || r.Incomplete? || r.ForReview? || r.Finished? ==>
                FitsLastStep(r, log, project)
    {
      hide HandOffOf, Began, Safe, Carries, StartsCarry, NoneStarted, CannotRun, Asked;
      var ended := Begin(a);
      SafeParts(log);
      if ended.Some? {
        return ended.value;
      }
      ghost var from := if a.forceNew then 1 else 2;
      var guard := 0;
      while guard < STEP_LIMIT
        invariant 0 <= guard <= STEP_LIMIT
        invariant Safe(log) && Began(log) && !forceNew && remembered == []
        invariant |log| <= 10 + 11 * guard && Autos(log) == guard
        invariant OpensAsAsked(a, log) && StartsCarry(log, from, replies, cwd)
      {
        guard := guard + 1;
        ghost var log0, replies0 := log, replies;
        var stop := Round();
        CarryOn(log0, log, from, replies0, replies, cwd);
        StillOpensAsAsked(a, log0, log);
        SafeParts(log);
        if stop.Some? {
          return stop.value;
        }
      }
      SafeParts(log);
      r := StepLimit;
    }

    lemma StillOpensAsAsked(a: Arguments, log0: seq<Exchange>, log1: seq<Exchange>)
      requires OpensAsAsked(a, log0) && log0 <= log1
      ensures OpensAsAsked(a, log1)
    {
      hide Asked;
    }
  }
}
