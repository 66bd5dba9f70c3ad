# Verified models of the AscendC Pilot host protocols

AscendC Pilot drives operator analysis from an OpenCode host. This project models, in Dafny, the parts of it
that are protocols or algorithms with a promise of their own, and proves the promises for every input, every
run or every interleaving:

* **The dispatch protocol.** `DispatchRegistry` is the durable registry of native-Task dispatches, one file of
  records keyed by session, project and ticket; `RegistryRuns` is about sequences of its calls. `AckGuard` is
  the session-safe facade that acknowledges tickets and refuses to dispatch a ticket again after its
  acknowledgement failed. `TaskCorrelation` is the table that ties the before- and after-hooks of concurrent
  Tasks together. `HostPath` is the path normalisation all of them rest on.
* **The driver.** `PilotDriver` is one `pilot_run` against an arbitrary ACP process and an arbitrary human.
* **Write scopes.** `ScopeSeparation` relates the textual overlap check of producer and referee scopes to what
  the scopes match at run time.
* **The pull-request workspace.** `Worktree` (lock and checkout), `OperatorScan` and `OperatorDetection`
  (finding operators by walking and from changed files), `BaseSelection` (the base commit on a commit graph),
  `HunkScope` and `ChangePin` (scoping hunks, promoting a receipt to a change contract, the gates),
  `OperatorTargets` (matrix and pairs).
* **Scanners and streams.** `BraceScanner`, `ArgvTokenizer`, `PayloadSlice`.

`Text` and `Lists` hold the string and list functions of the two source languages that the models share:
trimming by each language's own white space, splitting, stable sorts.

Where the source updates state, the model is a class with the same fields (`Registry`, `Facade`, `TaskHooks`,
`Run`, both `Workspace` classes, `Slice`) or a method with the same loop. Each method is proved equal to a
function of the old state, and the theorems are about that function and about runs of it. Files, git, the
clock, ACP and the human are inputs or havoc: nothing is assumed about what they answer, beyond what the member
states. A registry file is `None` or a sequence of records, and a property of a record is missing, present as
undefined, or set, because the merge of two records tells these apart.

## Where the code and its promise part

The models follow the code. These are the places where a promise needs a condition, with the theorem that gives
the condition:

* Normalising a project twice differs from normalising it once exactly when the resolved path ends in white
  space (`NormalizeIdempotentIff`; `NormalizeTwiceDiffers` has the path `/a/ /`). The registry invariant
  therefore survives a stored record exactly when its project settles (`RememberValidIff`). The cap and the order
  survive whatever is stored (`RunKeepsNewestFirst`).
* A record just remembered is read back under its own project and session exactly under `ReadsBack`
  (`RememberThenRead`). It is not read when a session-less record shares its project (`TwoOfProjectUnread`), nor
  when the project is `/a/ /` and the session has another record (`BlankTailUnread`).
* A registry key is one text joined with newlines, and `-` stands for a missing session. Below the cap, a
  session's call leaves another session's records alone exactly when its key text is not one of theirs
  (`SessionsDoNotInterfere`); a session named `-` displaces session-less records (`DashSessionDisplaces`), and
  names without newlines that are not `-` displace nothing (`PlainNamesDoNotDisplace`).
* A dispatch after a failed acknowledgement stalls exactly when the record its guard reads is the ticket's and
  carries a failure (`DispatchStalls`). Without a session that is the only record of the project, or the only
  record of the file when the project has none (`UnnamedDispatchIff`); two records of the project let every
  session-less dispatch through (`TwoRecordsLetThrough`, `SecondRecordLetsThrough`). A failure without a session
  is stored under the session of the record it found (`FailureFields`), and the acknowledgement blocks exactly the
  session-less dispatches for whose project it leaves no other record (`FailedAckHolds`).
* The injected ids reach the after-hook exactly when they survive what the output and the input say about them
  (`InjectedIsExtracted`). A Task without an invocation id whose after-hook is given one finds its own
  registration exactly when that name leads nowhere or is its own (`NamedInvocationIff`).
* An after-hook clears every key of its Task exactly when the Task has no invocation id of its own or the hook
  sees it (`FullRemovalIff`); this does not depend on the child session id.
* On subtree scopes of any spellings the overlap check agrees with the paths they match exactly when they are
  spelled alike or neither directory lies at or under the other (`AgreesIff`): a bare and a `pilot:` scope are
  never in conflict (`MixedNeverConflicts`). A scope counts as scratch by its first four letters.
* `resolve_pr_base_sha` returns nothing or a strict ancestor of the head exactly when the first candidate that
  decides is related to the head and does not contain it (`PrBaseIsAncestorIff`); a head that has been merged
  gets a descendant as base (`MergedHeadGivesDescendant`). Its test `mb == cand` can be removed without changing
  any base (`OwnMergeBaseIsDecidedBefore`).
* A free workspace lock belongs to the first run that acquires it exactly when the run's name is read back from
  the YAML file as it was written (`FirstRunOwnsLock`). A name that reads as nothing, such as `0` or `null`, leaves
  the lock free (`UnreadNameIsNoOwner`); one that reads as another text, such as `007`, locks its own run out
  (`ChangedNameLocksOut`). Among overlapping acquisitions two runs get in exactly when another one is already due
  at the first write and writes later (`RaceIff`). The lock is never released.
* A successful acknowledgement of the record a target reads, a host step that is no dispatch, and a dispatch with
  slices still to send let the target go (`SuccessLetsThrough`, `HostStepLetsThrough`, `PartialLetsThroughIff`). Only
  the last has an exception: the session's only record was another project's, and a failing record shares the key
  text, not the names, of the one the dispatch is mirrored as; plain names exclude it (`PlainNamesDoNotStay`).
* An acknowledgement context is stored under the project as given and looked up under the trimmed one, so it is found
  exactly when there is no white space around the project (`ContextIsFoundIff`).
* A brace inside a string ends a scan early: the scan stops behind exactly the shortest balanced text
  (`ScanStopsIff`, `BraceInStringStopsScan`).
* The backslash that quoting puts before a double quote is never removed by the tokenizer, so the round trip
  holds exactly for lists without empty arguments and without double quotes (`RoundTripIff`).
* In the driver, `compactDispatchTasks` never yields a single Task, so the fallback to a single Task's stub is
  dead (`NeverOneTask`); an answered question always carries a choice, so the architecture branch of
  `consumeStartAsks` and its last `return asked` are not reached and are not modelled.
* When the drive switches to `uo-init` and no start of it succeeds, it goes on driving exactly when ACP's first
  answer or the human's last one asks for a query (`SwitchToInit`, `AnswerDriveAsk`): the payload of a query passes
  as a successful start (`QueryLooksStarted`).
* The last fallback of `detect_operator_roots`, the worktree itself, is taken only for a change without files
  (`DetectIff`).
* A successful pin passes the pull-request gate exactly when the goal does not contradict the receipt
  (`PinPassesGate`).

## Main results

* Dispatch: `FailedAckBlocksDispatch` and `NoRedispatch` (whole runs, every session and none),
  `UnnamedDispatchIff`, `SuccessLetsThrough`, `PartialLetsThroughIff`, `FailureIsReported`; `HooksCorrelate`, `ExactCorrelation` and `FullRemovalIff` (every interleaving);
  `RunKeepsValid`, `SessionsDoNotInterfere`, `RememberThenRead`, `NoticesAtMostFailures`, `DrainGivesEachOnce`.
* Driver: `Run.Drive`, with `SwitchToInit` for the one question it drives past.
* Scopes: `CleanCheckSeparates`, `SubtreeConflictIff`, `AgreesIff`, `GlobIff`.
* Workspace: `Workspace.Create`, `FirstRunOwnsLock`, `RaceIff`; `ListOperatorRoots`, `DetectIff`;
  `PrBaseIsAncestorIff`, `PinBaseIff`; `ScopeIsPartition`, `KeptHunksAreOwn`; `PinStores`, `PinPassesGate`;
  `NormalizeFlattenIff`, `PairsConserved`.
* Scanners: `ScanStopsIff`, `ObjectsAreDisjoint`, `RoundTripIff`, `ExtractPayload`.

## Model

| member | source | states |
|---|---|---|
| HostPath.NormalShape | opencode-plugin/dispatch-registry.ts:53-61 | a normalised project is absolute and clean, and is empty exactly for a blank project |
| HostPath.NormalizeIdempotentIff | opencode-plugin/dispatch-registry.ts:53-61 | normalising twice equals normalising once exactly when the resolved path does not end in white space |
| HostPath.NormalizeTwiceDiffers | opencode-plugin/dispatch-registry.ts:53-61 | a concrete project whose two normalisations differ |
| HostPath.ParentUndoes | opencode-plugin/dispatch-registry.ts:53-61 | a directory and the `..` behind it undo each other anywhere in a path; the root has no parent; empty segments and `.` say nothing |
| HostPath.RelativeFromDirectory | opencode-plugin/dispatch-registry.ts:53-61 | a relative project is worked out from the working directory, an absolute one from the root |
| DispatchRegistry.NormalizeRecordIdempotentIff | opencode-plugin/dispatch-registry.ts:63-74 | exactly when normalising a record is idempotent |
| DispatchRegistry.Registry.Save | opencode-plugin/dispatch-registry.ts:98-107 | whatever is saved: at most 128 records, newest first, a part of what was given, and none lost that is newer than a kept one |
| DispatchRegistry.Registry.Remember | opencode-plugin/dispatch-registry.ts:109-119 | the file and the returned record after a merge; keeps the invariant for projects that settle |
| DispatchRegistry.Registry.Remove | opencode-plugin/dispatch-registry.ts:161-185 | the file after a removal, deleted when nothing is left; keeps the invariant |
| DispatchRegistry.Registry.RecordFailure | opencode-plugin/dispatch-registry.ts:187-219 | the file and the record after a failed acknowledgement; `FailureIsDue` says what that record holds |
| DispatchRegistry.Registry.ClearFailure | opencode-plugin/dispatch-registry.ts:221-229 | the file after a failure has been cleared; `ClearedIsClean` says what the record holds then |
| DispatchRegistry.Registry.ConsumeNotice | opencode-plugin/dispatch-registry.ts:240-263 | the notice and the file after a consumption; keeps the invariant |
| DispatchRegistry.ClearedIsClean | opencode-plugin/dispatch-registry.ts:221-229 | the record stored by clearing has no error, no failure time and no report; it keeps its names and attempts and takes the time of the call |
| DispatchRegistry.ClearedKeyIsClean | opencode-plugin/dispatch-registry.ts:221-229 | after clearing, no record of that session, project and ticket carries a failure |
| DispatchRegistry.FailureIsDue | opencode-plugin/dispatch-registry.ts:187-219 | a recorded failure is due again, with the first 800 characters of its error, one attempt more than the record it found, and the names given or found |
| DispatchRegistry.FailureIsReported | opencode-plugin/dispatch-registry.ts:187-263 | a consumption for its session directly afterwards returns a notice, and this very one when no other due failure is newer |
| DispatchRegistry.NoticeSays | opencode-plugin/dispatch-registry.ts:253-262 | a notice carries the ticket, project, session and error of its record |
| DispatchRegistry.LatestIff | opencode-plugin/dispatch-registry.ts:149-159 | the latest record of a session is its newest and never another session's; without a session it is the only record of the file |
| DispatchRegistry.RememberIsInsert | opencode-plugin/dispatch-registry.ts:98-119 | on a valid file, remembering is an insertion by time among the records of other keys, then the cap |
| DispatchRegistry.RememberKeepsValid | opencode-plugin/dispatch-registry.ts:109-119 | distinct keys, settled records, newest first and at most 128 are kept |
| DispatchRegistry.RememberValidIff | opencode-plugin/dispatch-registry.ts:109-119 | a kept record leaves the invariant intact exactly when its project settles |
| DispatchRegistry.RememberedFields | opencode-plugin/dispatch-registry.ts:113-116 | a missing failure property keeps the stored value, an undefined one erases it, a value replaces it |
| DispatchRegistry.EvictedAreOldest | opencode-plugin/dispatch-registry.ts:98-119 | a lost record of another key is no newer than every kept one of a full file |
| DispatchRegistry.RememberThenRead | opencode-plugin/dispatch-registry.ts:109-139 | a record at least as new as all others is read back under its project and session exactly when the project settles and no other kept record is read instead |
| DispatchRegistry.TwoOfProjectUnread | opencode-plugin/dispatch-registry.ts:139-146 | without a session, a newest record is not read back when another kept one is of its project |
| DispatchRegistry.BlankTailUnread | opencode-plugin/dispatch-registry.ts:53-139 | with the project `/a/ /`, a newest record is not read back when its session has another kept one |
| DispatchRegistry.RemoveExact | opencode-plugin/dispatch-registry.ts:161-185 | removal drops exactly the records that match every given argument, in order |
| DispatchRegistry.ConsumeTakesNewest | opencode-plugin/dispatch-registry.ts:240-263 | a consumption gives the newest due failure and takes exactly it off the list, or changes nothing |
| DispatchRegistry.DrainGivesEachOnce | opencode-plugin/dispatch-registry.ts:240-263 | repeated consumption gives every due failure of the session once, newest first, then nothing |
| RegistryRuns.RunKeepsValid | opencode-plugin/dispatch-registry.ts:81-263 | the invariant holds after every sequence of calls |
| RegistryRuns.RunKeepsNewestFirst | opencode-plugin/dispatch-registry.ts:98-263 | whatever the projects and clocks, every reachable file has at most 128 records, newest first |
| RegistryRuns.SessionsDoNotInterfere | opencode-plugin/dispatch-registry.ts:109-252 | any call of a named session leaves other sessions' records alone but for the cap, exactly unless its key text collides |
| RegistryRuns.KeyTextInjective | opencode-plugin/dispatch-registry.ts:76-79 | plain names make the key text stand for session, project and ticket |
| RegistryRuns.PlainNamesDoNotDisplace | opencode-plugin/dispatch-registry.ts:76-79 | plain names never collide across sessions |
| RegistryRuns.DashSessionDisplaces | opencode-plugin/dispatch-registry.ts:76-79 | the session `-` removes a session-less record |
| RegistryRuns.ReadForOwnSession | opencode-plugin/dispatch-registry.ts:121-147 | what a named session reads: its newest for the project, else its only record, never another session's; and exactly when nothing |
| RegistryRuns.NoticesAtMostFailures | opencode-plugin/dispatch-registry.ts:187-263 | over any run from any file, notices given are at most failures recorded plus those waiting before |
| RegistryRuns.FailuresIs | opencode-plugin/dispatch-registry.ts:187-219 | the failures counted there are the calls of the run that record one |
| AckGuard.Facade.FindRecentAck | opencode-plugin/pilot-driver.ts:32-41 | the acknowledgement context within its time to live; forgetting an expired one changes no answer |
| AckGuard.Facade.RememberPending | opencode-plugin/pilot-driver.ts:95-105 | remembers the dispatch with the session and workflow of a recent acknowledgement |
| AckGuard.Facade.ClearPending | opencode-plugin/pilot-driver.ts:130-149 | removes the record found, by the acknowledgement's session and ticket when there is one |
| AckGuard.Facade.BeginSubmit | opencode-plugin/pilot-driver.ts:157-164 | which record, session and workflow an acknowledgement concerns |
| AckGuard.Facade.EndSubmit | opencode-plugin/pilot-driver.ts:166-185 | the registry after an answer: a failed one records the failure, a good one clears the record found before the wait; `SuccessLetsThrough` and `FailedAckHolds` say what follows |
| AckGuard.Facade.Guard | opencode-plugin/pilot-driver.ts:232-294 | when a tool result is replaced by a stall, and what happens to the registry in every case |
| AckGuard.FailureFields | opencode-plugin/dispatch-registry.ts:196-218 | what a recorded failure carries; without a session it takes that of the record it found |
| AckGuard.FailedAckHolds | opencode-plugin/pilot-driver.ts:166-181 | a failed acknowledgement blocks its ticket for the session it is stored under; a session-less dispatch is blocked exactly when no other kept record is of the project |
| AckGuard.OwnWrite | opencode-plugin/dispatch-registry.ts:109-119 | with plain names and room under the cap, a write lets a ticket go exactly when it erases the failure under the record's own names or stores a record that is read instead |
| AckGuard.ForeignWriteNeverReleases | opencode-plugin/dispatch-registry.ts:109-119 | with plain names and room under the cap, a write for another session or project never lets the ticket go |
| AckGuard.StepKeepsHeld | opencode-plugin/pilot-driver.ts:95-294 | every step of the facade that does not release what a dispatch is guarded for keeps it held, with a session or without |
| AckGuard.DispatchStalls | opencode-plugin/pilot-driver.ts:255-294 | a complete dispatch stalls, and changes nothing, exactly when the record its guard reads is the ticket's and carries a failure |
| AckGuard.SuccessLetsThrough | opencode-plugin/pilot-driver.ts:166-185 | after a successful acknowledgement of the record that a target reads, its next complete dispatch passes |
| AckGuard.HostStepLetsThrough | opencode-plugin/pilot-driver.ts:255-275 | after a host step that is no dispatch, every complete dispatch guarded for its session and project passes |
| AckGuard.PartialLetsThroughIff | opencode-plugin/pilot-driver.ts:276-291 | after a dispatch with slices still to send, the next complete one passes except in exactly one case, a record that shares a key text but not its names |
| AckGuard.PlainNamesDoNotStay | opencode-plugin/pilot-driver.ts:276-291 | with names without newlines that are not `-` that case does not occur |
| AckGuard.MirrorKeepsFailure | opencode-plugin/pilot-driver.ts:232-253 | mirroring a dispatch keeps the failure stored under its key, with its time and its report; the record's names are the dispatch's, else the older pointer's |
| AckGuard.FailureActor | opencode-plugin/pilot-driver.ts:166-181 | a failed acknowledgement names the actor and action of the dispatch it was for, else of the record it found |
| AckGuard.ContextIsFoundIff | opencode-plugin/pilot-driver.ts:32-41 | an acknowledgement context is found for 30 seconds exactly when its project was given without white space around it |
| AckGuard.PendingTakesContext | opencode-plugin/pilot-driver.ts:95-105 | a remembered dispatch takes session and workflow from the recent acknowledgement of its project |
| AckGuard.ClearTakesAcknowledged | opencode-plugin/pilot-driver.ts:130-149 | a clearing after an acknowledgement takes away exactly the records of its session and ticket in the project the session reads |
| AckGuard.PendingIs | opencode-plugin/pilot-driver.ts:157-164 | the record an acknowledgement concerns: the live session's for the project, else that session's latest, else what the hinted session reads |
| AckGuard.UnnamedDispatchIff | opencode-plugin/dispatch-registry.ts:139-146 | a session-less dispatch stalls exactly when a failing record of its ticket is the only one of the project, or the only one of the file when the project has none |
| AckGuard.TwoRecordsLetThrough | opencode-plugin/pilot-driver.ts:255-294 | two records of the project let every session-less dispatch for it through |
| AckGuard.SecondRecordLetsThrough | opencode-plugin/pilot-driver.ts:255-294 | a failing record and another session's record of the same project: the ticket is dispatched again |
| AckGuard.NoRedispatch | opencode-plugin/pilot-driver.ts:151-294 | over whole runs, until something releases it every complete dispatch guarded for a held ticket stalls and leaves the registry unchanged, with a session or without |
| AckGuard.FailedAckBlocksDispatch | opencode-plugin/pilot-driver.ts:151-294 | the same from the failed acknowledgement itself, on any valid registry, for every target it blocks |
| TaskCorrelation.InjectedIsExtracted | opencode-plugin/ascendc-pilot.ts:2380-2434 | each injected id is the one the after-hook extracts exactly when it survives what the output and the input say; without an invocation id, none is extracted exactly when nothing names one |
| TaskCorrelation.InjectionWrites | opencode-plugin/ascendc-pilot.ts:2380-2402 | the injection writes the ids into the arguments and their metadata and nothing else |
| TaskCorrelation.TaskHooks.Before | opencode-plugin/ascendc-pilot.ts:3304-3325 | the table and the arguments after a registered before-hook |
| TaskCorrelation.TaskHooks.Find | opencode-plugin/ascendc-pilot.ts:2436-2466 | the four keys in order, then the scan by registration id, then by nonce |
| TaskCorrelation.LookupIs | opencode-plugin/ascendc-pilot.ts:2436-2466 | the entry of the first key that leads anywhere, else one of the registration id, else one of the nonce, and nothing exactly when there is none of these |
| TaskCorrelation.TaskHooks.After | opencode-plugin/ascendc-pilot.ts:3514-3622 | the hit, the table and the child relations after an after-hook, with and without child session |
| TaskCorrelation.RunIsCorrelated | opencode-plugin/ascendc-pilot.ts:3304-3622 | in every interleaving each key leads to its own Task and open Tasks have all their keys |
| TaskCorrelation.ExactCorrelation | opencode-plugin/ascendc-pilot.ts:3304-3588 | in every interleaving an after-hook binds its child session to its own registration, parent session and action, never to another's, and leaves the other child sessions alone |
| TaskCorrelation.HooksCorrelate | opencode-plugin/ascendc-pilot.ts:3304-3588 | from the injected arguments on, in every interleaving of undisturbed hooks an after-hook relates its child session to its own registration |
| TaskCorrelation.NamedInvocationIff | opencode-plugin/ascendc-pilot.ts:2436-2466 | a Task without an invocation id that is given one finds its own registration exactly when that name leads nowhere or is its own |
| TaskCorrelation.FullRemovalIff | opencode-plugin/ascendc-pilot.ts:3583-3622 | exactly when no key maps to the finished Task's registration any more |
| PilotDriver.NeverOneTask | opencode-plugin/pilot-driver-core.ts:126-144 | parallel Tasks number none or at least two, each with a prompt |
| PilotDriver.HandOffIff | opencode-plugin/pilot-driver-core.ts:1315-1400 | exactly which steps are handed off, and that every other is incomplete or waiting |
| PilotDriver.StartSuccessIff | opencode-plugin/pilot-driver-core.ts:272-282 | exactly which answers count as a successful start |
| PilotDriver.CanonicalNames | opencode-plugin/pilot-driver-core.ts:896-900 | slashes and white space around a workflow's name do not matter, and `auto` is the intake |
| PilotDriver.Run.ActOnStartAnswer | opencode-plugin/pilot-driver-core.ts:1522-1580 | an answer ends the start, by a query exactly when it asks for one, or issues exactly one more start, with the decision, project or workflow of the reply; `--force-new` is never switched on |
| PilotDriver.Run.ConsumeStartAsks | opencode-plugin/pilot-driver-core.ts:1473-1583 | at most four questions and eight commands, safety kept, and the payload of a query exactly when ACP's first answer or the last reply asks for one |
| PilotDriver.QueryLooksStarted | opencode-plugin/pilot-driver-core.ts:255-282 | the payload of a query passes as a successful start |
| PilotDriver.Run.SwitchToInit | opencode-plugin/pilot-driver-core.ts:1779-1799 | after a switch without a successful start the drive goes on exactly when ACP or the human asked for a query |
| PilotDriver.Run.StartOrResume | opencode-plugin/pilot-driver-core.ts:1585-1628 | with `--force-new` the run starts anew at once, with the workflow and project it was given; without, it asks for the status first, resumes exactly when that is live for the same workflow, and else starts; every later start carries what some reply of the human said |
| PilotDriver.Run.Begin | opencode-plugin/pilot-driver-core.ts:1408-1678 | opens as asked; driving is allowed only after a live status or a successful start, and never with `--force-new` |
| PilotDriver.Run.AskedIs | opencode-plugin/pilot-driver-core.ts:1408-1461 | white space around the request does not matter, the host's directory stands in for a project, and exactly when nothing is run |
| PilotDriver.Run.AnswerDriveAsk | opencode-plugin/pilot-driver-core.ts:1753-1836 | a question inside the drive costs at most ten commands, keeps safety, and after a switch goes on exactly as there |
| PilotDriver.Run.Round | opencode-plugin/pilot-driver-core.ts:1695-1960 | one round of the drive: exactly one drive command, and a result that fits the step ACP answered with |
| PilotDriver.Run.Drive | opencode-plugin/pilot-driver-core.ts:1402-1976 | for every ACP and human: opens with a forced start exactly when asked for and with the status otherwise, no forced start after a successful one, every further start carries what some reply said, at most 64 drives and 714 commands, and only the handed-over ticket remembered |
| ScopeSeparation.LiteralPrefix | scripts/compose_runtime_legacy.py:575-584 | the loop computes the literal directory prefix |
| ScopeSeparation.OverlapErrors | scripts/compose_runtime_legacy.py:600-610 | the reported pairs are exactly the conflicting ones of which neither is scratch; `StartsWithRunsIff` and `ScratchMatchesRuns` say which scopes are scratch and what they match |
| ScopeSeparation.StartsWithRunsIff | scripts/compose_runtime_legacy.py:602-606 | the scopes left out are those that begin with `runs` or `pilot:runs` |
| ScopeSeparation.ScratchMatchesRuns | pilot/ascendc_pilot/agents_registry.py:318-346 | such a scope matches only paths that begin with `runs` |
| ScopeSeparation.GlobIff | pilot/ascendc_pilot/agents_registry.py:318-346 | a pattern matches exactly the texts that can be cut into pieces its items take, a star any piece, slashes included |
| ScopeSeparation.LiteralTextIff | pilot/ascendc_pilot/agents_registry.py:318-346 | a scope without metacharacters matches exactly its own path and what lies below it; an empty one nothing |
| ScopeSeparation.TaggedElsewhere | pilot/ascendc_pilot/agents_registry.py:295-316 | which tags and skill directories put a scope into another namespace |
| ScopeSeparation.SourceDirectory | pilot/ascendc_pilot/agents_registry.py:295-316 | which first directories make a bare scope one of the sources |
| ScopeSeparation.ClassEndIs | pilot/ascendc_pilot/agents_registry.py:342-343 | where a character class of a pattern ends |
| ScopeSeparation.PrefixIsAbove | scripts/compose_runtime_legacy.py:575-597 | the prefix the check computes lies above every path the scope matches at run time |
| ScopeSeparation.OverlapIsConflict | scripts/compose_runtime_legacy.py:587-597 | scopes of one spelling that match a common path are in conflict |
| ScopeSeparation.CleanCheckSeparates | scripts/compose_runtime_legacy.py:600-610 | when nothing is reported, no path outside `runs` is matched by a producer scope and by a referee scope, and no path at all by two that are not scratch, if the lasting pilot scopes are spelled alike |
| ScopeSeparation.SubtreeConflictIff | scripts/compose_runtime_legacy.py:575-597 | on literal subtree scopes a conflict is reported exactly when some path matches both |
| ScopeSeparation.MixedNeverConflicts | scripts/compose_runtime_legacy.py:575-597 | a bare and a tagged subtree scope are never in conflict, whatever their directories |
| ScopeSeparation.AgreesIff | scripts/compose_runtime_legacy.py:575-597 | on subtree scopes of any spellings the check agrees with the paths they match exactly when they are spelled alike or not nested |
| Worktree.GrantedAgain | engines/workspace/git_workspace.py:552-575 | a run that has the lock gets it again exactly when its name reads back as itself or as nothing |
| Worktree.HolderKeepsLock | engines/workspace/git_workspace.py:552-575 | once the lock names a run whose name reads back, exactly that run's acquisitions succeed, for ever |
| Worktree.FirstRunOwnsLock | engines/workspace/git_workspace.py:552-575 | a free lock belongs to the first run, whatever runs come later, exactly when its name reads back |
| Worktree.UnreadNameIsNoOwner | engines/workspace/git_workspace.py:552-575 | a name that reads as nothing lets every other run in as well |
| Worktree.ChangedNameLocksOut | engines/workspace/git_workspace.py:552-575 | a name that reads as another text locks its own run out |
| Worktree.NoOtherRunAfterWrite | engines/workspace/git_workspace.py:552-575 | when the lock names a run and no other check is due its write, no interleaving lets another run in |
| Worktree.RaceIff | engines/workspace/git_workspace.py:552-575 | from a free lock, two runs get in exactly when at the first write another one is already due, and writes later |
| Worktree.ChecksBeforeWriteRace | engines/workspace/git_workspace.py:552-575 | any two runs of different names that check before either writes both get in |
| Worktree.Workspace.TakeLock | engines/workspace/git_workspace.py:552-575 | the acquisition as a read, through YAML, and a write of the lock file |
| Worktree.Workspace.ReuseOrClear | engines/workspace/git_workspace.py:595-644 | an existing destination is reused at the requested commit, refused, or cleared; a user's tree is never cleared |
| Worktree.Workspace.Populate | engines/workspace/git_workspace.py:651-684 | a new tree stands at the requested commit; cleaning up touches only what this call made |
| Worktree.Workspace.Create | engines/workspace/git_workspace.py:578-684 | ready means that the two commit ids agree in every place both have, letter case apart; a matching tree is reused; exactly when it fails, and how; a pre-existing operator tree or checkout of the user is never removed; a foreign lock leaves all untouched; when the lock is taken twice |
| Worktree.ShaMatchesIff | engines/workspace/git_workspace.py:540-545 | the test decides whether neither id is blank and both agree, letter case apart, in every place both have |
| Worktree.SameLengthIff | engines/workspace/git_workspace.py:540-545 | ids of one length name one commit exactly when they differ in letter case only |
| OperatorScan.ListOperatorRoots | engines/workspace/git_workspace.py:745-769 | the walk returns exactly the topmost operator roots within the bound, each once, and terminates |
| OperatorScan.RootsAreNotNested | engines/workspace/git_workspace.py:745-769 | no listed root lies inside another |
| OperatorScan.IsOperatorRootIff | engines/workspace/git_workspace.py:700-723 | an operator root has `op_host` or `op_kernel` as a directory and no test, example or documentation directory on its path |
| OperatorDetection.DetectOperatorRoots | engines/workspace/pr_workspace.py:68-90 | the loops compute the detected roots in the order of the changed files |
| OperatorDetection.DetectIff | engines/workspace/pr_workspace.py:68-90 | exactly the touched operator roots are detected, each once, and when the worktree itself is the fallback |
| OperatorDetection.RootIsUnderTopmost | engines/workspace/git_workspace.py:745-769 | every visible operator root within the bound lies at or under one the listing finds |
| BaseSelection.CandidateList | engines/workspace/git_workspace.py:348-360 | the candidates in order |
| BaseSelection.CandidatesInOrder | engines/workspace/git_workspace.py:348-360 | which candidates there are and in which order they come |
| BaseSelection.FirstDecides | engines/workspace/git_workspace.py:361-378 | the base is what the first candidate that decides gives |
| BaseSelection.ResolvePrBase | engines/workspace/git_workspace.py:337-378 | the loop, with its set of seen candidates, equals the choice of the first deciding candidate |
| BaseSelection.PrBaseIsNotHead | engines/workspace/git_workspace.py:337-378 | the base is never the head |
| BaseSelection.PrBaseIsAncestorIff | engines/workspace/git_workspace.py:337-378 | the base is empty or a strict ancestor of the head exactly when the first deciding candidate is related to the head and does not contain it |
| BaseSelection.SharedHistoryGivesAncestor | engines/workspace/git_workspace.py:337-378 | candidates that share history with the head without containing it give a strict ancestor or nothing |
| BaseSelection.MergedHeadGivesDescendant | engines/workspace/git_workspace.py:361-374 | a head contained in its first candidate gets that descendant as base |
| BaseSelection.OwnMergeBaseIsDecidedBefore | engines/workspace/git_workspace.py:364-378 | removing the test for a candidate that is its own merge base changes no base |
| BaseSelection.ResolvePinBase | pilot/ascendc_pilot/change_contract.py:120-151 | the loops compute the first tried base with a difference |
| BaseSelection.PinBaseIff | pilot/ascendc_pilot/change_contract.py:120-151 | a returned base differs from the head in content, and none is returned exactly when every base on offer fails |
| BaseSelection.PinBaseIsFirst | pilot/ascendc_pilot/change_contract.py:120-151 | the pinned base is the first one on offer that differs from the head |
| HunkScope.ScopeHunks | pilot/ascendc_pilot/change_contract.py:308-328 | both outputs are the order-preserving selections by their tests |
| HunkScope.ScopeIsPartition | pilot/ascendc_pilot/change_contract.py:308-328 | the outputs and what is dropped share the input out; dropped hunks satisfy neither test |
| HunkScope.SplitAtMarkerIs | pilot/ascendc_pilot/change_contract.py:246-253 | a path is cut at the first occurrence of the first marker that occurs |
| HunkScope.ListedFileIsScopedIff | pilot/ascendc_pilot/change_contract.py:282-328 | a hunk of a listed file is scoped exactly when its path names no other operator |
| HunkScope.AccountsIff | pilot/ascendc_pilot/change_contract.py:282-305 | a listed file accounts for a hunk exactly when they are in the same place of an operator or one path ends in the other at a slash, and both name no other operator and no two directories of it |
| HunkScope.InOperatorTreeIff | pilot/ascendc_pilot/change_contract.py:265-280 | which other paths count as the operator's own |
| HunkScope.PrefixIsOperatorIff | pilot/ascendc_pilot/change_contract.py:255-262 | a prefix is accepted exactly when its last segment is the operator |
| HunkScope.KeptHunksAreOwn | pilot/ascendc_pilot/change_contract.py:273-328 | no kept hunk lies under the prefix of another operator |
| HunkScope.GroupByFile | pilot/ascendc_pilot/change_contract.py:331-348 | groups in order of appearance, each in input order |
| HunkScope.KeysInOrder | pilot/ascendc_pilot/change_contract.py:331-348 | the groups are those of the hunks, each once, in the order of their first hunks |
| HunkScope.Compact | pilot/ascendc_pilot/change_contract.py:331-360 | the digest is the first rows of the first groups by name |
| HunkScope.CompactBounded | pilot/ascendc_pilot/change_contract.py:331-360 | at most file_cap times per_file rows |
| HunkScope.DigestFromHunks | pilot/ascendc_pilot/change_contract.py:331-360 | every row of the digest is made from a hunk of the input |
| HunkScope.DigestKeeps | pilot/ascendc_pilot/change_contract.py:331-360 | no hunk of a listed group is lost while the group has room |
| ChangePin.Workspace.CaptureHunks | pilot/ascendc_pilot/change_contract.py:179-216 | the captured hunks, base and head, or why there are none |
| ChangePin.CaptureProperties | pilot/ascendc_pilot/change_contract.py:179-216 | a capture is a non-empty difference between two distinct commits with the head checked out |
| ChangePin.CaptureIff | pilot/ascendc_pilot/change_contract.py:179-216 | exactly when a capture succeeds, and with what |
| ChangePin.Workspace.Pin | pilot/ascendc_pilot/change_contract.py:460-576 | the result and the control files after a pin; a failed pin leaves the contract alone |
| ChangePin.PinStores | pilot/ascendc_pilot/change_contract.py:460-576 | a successful promotion stores distinct commits, the checked-out head, the receipt's files and the operator's own hunks |
| ChangePin.PinPassesGate | pilot/ascendc_pilot/change_contract.py:439-457 | the stored contract loads back, and the gate passes unchanged exactly when the goal does not contradict the receipt |
| ChangePin.PinVerifiesHead | pilot/ascendc_pilot/change_contract.py:579-599 | the pinned head is verified exactly while the repository stands where the worktree stood |
| ChangePin.PinTwice | pilot/ascendc_pilot/change_contract.py:460-576 | pinning again changes nothing |
| ChangePin.LoadIff | pilot/ascendc_pilot/change_contract.py:439-457 | exactly which stored contracts load |
| ChangePin.GateIff | pilot/ascendc_pilot/change_contract.py:651-705 | what the pull-request gate answers, by receipt, contract and goal |
| ChangePin.PassedGateIsPinned | pilot/ascendc_pilot/change_contract.py:651-705 | whatever passes the gate has a pinned contract behind it |
| ChangePin.PinFailsIff | pilot/ascendc_pilot/change_contract.py:460-576 | exactly when a promotion fails, and with which reason |
| OperatorTargets.GroupPairs | engines/workspace/pr_workspace.py:171-187 | the dictionary loop computes the groups in order of first appearance |
| OperatorTargets.NormalizeRows | engines/workspace/pr_workspace.py:149-187 | both readings of the rows: as a matrix or as flat pairs |
| OperatorTargets.FlattenTargets | engines/workspace/pr_workspace.py:190-216 | one pair per operator and architecture |
| OperatorTargets.NormalizeFlattenIff | engines/workspace/pr_workspace.py:149-216 | flattening and normalising gives a matrix back exactly when it is well formed |
| OperatorTargets.NormalizeIsStable | engines/workspace/pr_workspace.py:149-216 | on flat pairs, normalise after flatten after normalise is normalise |
| OperatorTargets.PairsConserved | engines/workspace/pr_workspace.py:149-216 | normalising and flattening keeps exactly the operators and the pairs of operator and architecture that the rows name, as a matrix, flat or mixed |
| OperatorTargets.LastNameIs | engines/workspace/pr_workspace.py:149-216 | an operator without a name takes the last component of its path that says something |
| OperatorTargets.ResolveTargets | engines/workspace/pr_workspace.py:219-331 | a ready result has at least one pair and none with a blank root or architecture; exactly when it asks instead |
| BraceScanner.ScanStopsIff | opencode-plugin/pilot-driver-core.ts:51-58 | a scan from an opening brace stops exactly behind the minimally balanced text |
| BraceScanner.ScanRecoversObject | opencode-plugin/pilot-driver-core.ts:48-67 | scanning a printed object with brace-free strings and any logs behind it returns exactly the object |
| BraceScanner.BraceInStringStopsScan | opencode-plugin/pilot-driver-core.ts:51-58 | a brace in a string cuts the object short |
| BraceScanner.ScanObject | opencode-plugin/pilot-driver-core.ts:51-66 | the depth-counting loop computes where the scan stops |
| BraceScanner.ParseAcpStdout | opencode-plugin/pilot-driver-core.ts:28-77 | the trimmed output from its first brace on, whole or cut behind the first object |
| BraceScanner.StdoutGivesObject | opencode-plugin/pilot-driver-core.ts:28-77 | an object between brace-free text and any logs is what the parser returns |
| BraceScanner.ExtractObjects | opencode-plugin/ascendc-pilot.ts:195-221 | the values of the scanned slices that parse, left to right |
| BraceScanner.ObjectsAreDisjoint | opencode-plugin/ascendc-pilot.ts:195-221 | on any text the slices are disjoint, in order and minimally balanced |
| BraceScanner.ObjectsAreRecovered | opencode-plugin/ascendc-pilot.ts:195-221 | objects printed among text without opening braces are found exactly, in order |
| ArgvTokenizer.TokenizeArgv | opencode-plugin/ascendc-pilot.ts:1645-1671 | the loop with its open quote computes the tokens |
| ArgvTokenizer.TokenizeLine | opencode-plugin/ascendc-pilot.ts:1645-1671 | words of bare and quoted parts, of either quote, with any white space between them come out as what they mean, empty ones left out |
| ArgvTokenizer.RoundTripIff | opencode-plugin/ascendc-pilot.ts:2580-2582 | the round trip holds for exactly those lists |
| PayloadSlice.ReadPayloadSpec | scripts/cann_extract.py:65-101 | the offset is the length of the first `skip` lines and offset plus size is the file's length; exactly when the header is too short |
| PayloadSlice.DetectIff | scripts/cann_extract.py:65-101 | which payloads are known, by their first bytes |
| PayloadSlice.Slice.ReadInto | scripts/cann_extract.py:115-121 | a read appends to what was delivered, stays in the region, and is empty only for an empty buffer or at the end |
| PayloadSlice.Slice.ReadAll | scripts/cann_extract.py:104-127 | for any buffer sizes the bytes read are the next ones of the region |
| PayloadSlice.Slice.Drain | scripts/cann_extract.py:104-127 | reading until nothing comes delivers the whole region |
| PayloadSlice.ExtractPayload | scripts/cann_extract.py:65-127 | the payload is the file without its header lines |

## Left out

- The single-slot pointer of the older dispatch format and its promotion into the registry: a compatibility path that can bring failure fields back; it appears only as an arbitrary `legacy` record of the guard.
- The session hint file as a default argument: sessions are passed explicitly.
- Several clock readings inside one registry call: a call sees one time. That the clock does not run backwards is a hypothesis only of the theorems that state it.
- Malformed registry files: a file that is not JSON, or whose records are not objects with text and number fields, reads as the records that remain.
- UTF-16: JavaScript texts are sequences of characters, so the 800-unit cut of an error text counts characters.
- Windows paths, drive letters and case-insensitive file systems; symbolic links and `..` in the operator walks.
- The `method:` and `source:` scopes at run time, and what a character class of a pattern accepts (an arbitrary predicate).
- ACP processes, `authorize`, git and the file system as such: their answers are arbitrary inputs or havoc.
- The tool output, progress rows, todos, toasts and message texts of the driver and of the guard.
- Denied Tasks: a before-hook whose Task is then refused leaves its registration behind; the model has no refusal.
- Architecture, intent and test-script options of the start command; they are passed through unchanged.
- `write_clone_receipt`, `enumerate` readers and the composition of the human questions of `pin_facts`.
- `_basename_referenced_operators` and the second `detect_operator_roots` of git_workspace.py, which adds it: a text search over sources.
- Detection of architectures, `changed_architectures` and `operator_arch_matrix`: their rows are inputs of `ResolveTargets`.
- The search for the `skip` number in the archive header, the file-size warning, and decompression.
- `JSON.parse` and YAML: parsers are parameters or the parsed value is.
- AckGuard.Facade.RememberPending: leaves out the write of the older single-slot pointer, which only project discovery reads.
- AckGuard.Facade.ClearPending: leaves out the promotion and the clearing of the older single-slot pointer.
- AckGuard.Facade.BeginSubmit: leaves out the promotion of the older single-slot pointer behind the third read.
- DispatchRegistry.RememberKeepsValid: is limited to projects that settle; RememberValidIff shows that the limit is exact for a record that is kept.
- RegistryRuns.RunKeepsValid: is limited to runs whose written projects settle, for the same reason; RunKeepsNewestFirst is not.
- AckGuard.NoRedispatch: assumes that records are remembered with the current time, that no stored record is newer and that projects settle; with older times another record of the session could be read first.
- ScopeSeparation.CleanCheckSeparates: asks for one spelling, trimmed, of the lasting pilot scopes; AgreesIff shows on subtree scopes what is lost without it.
- Worktree.RaceIff: asks that the names of the runs read back; FirstRunOwnsLock says what happens to those that do not.
- Worktree.Reader: what YAML makes of a given name is a parameter, so which names read back is not decided here.
