/** The session-safe facade over the registry (opencode-plugin/pilot-driver.ts): acknowledging
    tickets, and refusing to dispatch again a ticket whose acknowledgement failed. */
module AckGuard {
  import opened Text
  import opened Lists
  import opened HostPath
  import opened DispatchRegistry
  import opened RegistryRuns

  const ACK_CONTEXT_TTL := 30_000

  datatype Ack = Ack(sessionId: string, ticket: string, workflow: string, ts: int)

  /** What a `pilot_run` result says, as far as the facade reads it. */
  datatype PilotResult = PilotResult(
    kind: string, project: string, cwd: string, ticket: string, actor: string, action: string,
    remaining: seq<string>, toolProject: string, toolWorkflow: string)

  datatype Outcome = Passed | Stalled(ticket: string)

  /** The acknowledgement context of a project, unless it is older than its time to live. */
  function RecentAck(acks: map<string, Ack>, now: int, project: string): Option<Ack> {
    var key := Trim(JavaScript, project);
    if key in acks && now - acks[key].ts <= ACK_CONTEXT_TTL then Some(acks[key]) else None
  }

  function ResultProject(p: PilotResult): string {
    Trim(JavaScript, OrElse(p.project, OrElse(p.cwd, p.toolProject)))
  }

  predicate IsDispatch(p: PilotResult) {
    p.kind == "dispatch_subagent"
  }

  /** The record a dispatch is mirrored as; `legacy` is whatever the old single-slot pointer holds. */
  function MirrorRecord(h: Host, p: PilotResult, session: string, legacy: Option<Record>): Record {
    var actor := if legacy.Some? then legacy.value.actor else "";
    var action := if legacy.Some? then legacy.value.action else "";
    var sid := if legacy.Some? then legacy.value.sessionId else "";
    var workflow := if legacy.Some? then legacy.value.workflow else "";
    var attempts := if legacy.Some? then IntOf(legacy.value.ackAttempts, 0) else 0;
    Record(ResultProject(p), Trim(JavaScript, p.ticket), OrElse(p.actor, actor), OrElse(p.action, action),
           OrElse(session, sid), OrElse(workflow, p.toolWorkflow), h.now,
           Value(attempts), Absent, Absent, Absent)
  }

  function MirrorFile(h: Host, file: File, p: PilotResult, session: string, legacy: Option<Record>): File {
    if Trim(JavaScript, p.ticket) == "" || ResultProject(p) == "" then file
    else RememberFile(h, file, MirrorRecord(h, p, session, legacy))
  }

  /** The record whose failed acknowledgement concerns this very ticket. */
  predicate SameFailing(previous: Option<Record>, p: PilotResult) {
    previous.Some? && previous.value.ticket == Trim(JavaScript, p.ticket) && Failing(previous.value)
  }

  /** The wrapped tool result: the registry afterwards and whether the result was replaced. */
  function WrapResult(h: Host, file: File, session: string, p: PilotResult, legacy: Option<Record>): (File, Outcome) {
    var previous := ReadFor(h, file, ResultProject(p), session);
    if previous.Some? && Failing(previous.value) && p.kind != "" && !IsDispatch(p) then
      (RememberFile(h, file, ClearedRecord(h, previous.value)), Passed)
    else if !IsDispatch(p) then
      (file, Passed)
    else if SameFailing(previous, p) && NonBlank(JavaScript, p.remaining) == [] then
      (file, Stalled(previous.value.ticket))
    else
      var cleared := if SameFailing(previous, p) then RememberFile(h, file, ClearedRecord(h, previous.value)) else file;
      (MirrorFile(h, cleared, p, session, legacy), Passed)
  }

  /** The record found before the acknowledgement is sent. */
  function PendingOf(h: Host, file: File, project: string, live: string, hint: string): Option<Record> {
    var a := ReadFor(h, file, project, live);
    if a.Some? then a
    else
      var b := ReadLatest(h, file, live);
      if b.Some? then b else ReadFor(h, file, project, hint)
  }

  function AckFailure(project: string, ticket: string, sessionId: string, workflow: string,
                      pending: Option<Record>, error: string): Failure {
    Failure(project, ticket, sessionId, workflow,
            if pending.Some? then pending.value.actor else "",
            if pending.Some? then pending.value.action else "", error)
  }

  /** The registry after the acknowledgement of a ticket has been answered. */
  function AckFile(h: Host, file: File, project: string, ticket: string, sessionId: string, workflow: string,
                   pending: Option<Record>, ok: bool, error: string): File {
    if !ok then
      RememberFile(h, file, FailureRecord(h, file, AckFailure(project, ticket, sessionId, workflow, pending, error)))
    else if pending.Some? then RememberFile(h, file, ClearedRecord(h, pending.value))
    else file
  }

  function PendingEntry(e: Record, ack: Option<Ack>): Record {
    if ack.None? then e
    else e.(sessionId := OrElse(ack.value.sessionId, e.sessionId), workflow := OrElse(e.workflow, ack.value.workflow))
  }

  function ClearFile(h: Host, file: File, project: string, hint: string, ack: Option<Ack>): File {
    var current := ReadFor(h, file, project, if ack.Some? then ack.value.sessionId else hint);
    if current.None? then file
    else
      RemoveFile(h, file, OrElse(current.value.project, project),
                 OrElse(if ack.Some? then ack.value.sessionId else "", current.value.sessionId),
                 OrElse(if ack.Some? then ack.value.ticket else "", current.value.ticket))
  }

  // ----- the facade

  class Facade {
    const registry: Registry
    var recentAck: map<string, Ack>

    constructor (registry: Registry)
      ensures this.registry == registry && recentAck == map[]
    {
      this.registry := registry;
      recentAck := map[];
    }

    /** Looks up the acknowledgement context and forgets an expired one. */
    method FindRecentAck(now: int, project: string) returns (ack: Option<Ack>)
      modifies this
      ensures ack == RecentAck(old(recentAck), now, project)
      ensures forall q :: RecentAck(recentAck, now, q) == RecentAck(old(recentAck), now, q)
    {
      var key := Trim(JavaScript, project);
      if key !in recentAck {
        return None;
      }
      if now - recentAck[key].ts > ACK_CONTEXT_TTL {
        recentAck := recentAck - {key};
        return None;
      }
      ack := Some(recentAck[key]);
    }

    method RememberPending(h: Host, e: Record)
      modifies this, registry
      ensures registry.file
           == RememberFile(h, old(registry.file), PendingEntry(e, RecentAck(old(recentAck), h.now, e.project)))
    {
      var ack := FindRecentAck(h.now, e.project);
      var merged := registry.Remember(h, PendingEntry(e, ack));
    }

    method ClearPending(h: Host, project: string, hint: string)
      modifies this, registry
      ensures registry.file
           == ClearFile(h, old(registry.file), project, hint, RecentAck(old(recentAck), h.now, project))
    {
      var ack := FindRecentAck(h.now, project);
      var current := ReadFor(h, registry.file, project, if ack.Some? then ack.value.sessionId else hint);
      if current.Some? {
        registry.Remove(h, OrElse(current.value.project, project),
                        OrElse(if ack.Some? then ack.value.sessionId else "", current.value.sessionId),
                        OrElse(if ack.Some? then ack.value.ticket else "", current.value.ticket));
      }
    }

    /** Everything `submitDispatchResult` settles before it waits for the answer. */
    method BeginSubmit(h: Host, project: string, optSession: string, optWorkflow: string, hint: string)
      returns (pending: Option<Record>, sessionId: string, workflow: string)
      ensures var live := Trim(JavaScript, OrElse(optSession, hint));
              && pending == PendingOf(h, registry.file, project, live, hint)
              && (optSession != "" ==> sessionId == Trim(JavaScript, optSession))
              && (optSession == "" && pending.Some? && pending.value.sessionId != "" ==>
                    sessionId == Trim(JavaScript, pending.value.sessionId))
              && (optSession == "" && (pending.None? || pending.value.sessionId == "") ==>
                    sessionId == Trim(JavaScript, live))
              && workflow == Trim(JavaScript, OrElse(optWorkflow, if pending.Some? then pending.value.workflow else ""))
    {
      var live := Trim(JavaScript, OrElse(optSession, hint));
      pending := ReadFor(h, registry.file, project, live);
      if pending.None? {
        pending := ReadLatest(h, registry.file, live);
      }
      if pending.None? {
        pending := ReadFor(h, registry.file, project, hint);
      }
      sessionId := Trim(JavaScript,
                        OrElse(optSession, OrElse(if pending.Some? then pending.value.sessionId else "", live)));
      workflow := Trim(JavaScript, OrElse(optWorkflow, if pending.Some? then pending.value.workflow else ""));
    }

    /** What follows the wait, with the record found before it. */
    method EndSubmit(h: Host, project: string, ticket: string, sessionId: string, workflow: string,
                     pending: Option<Record>, ok: bool, error: string)
      modifies this, registry
      ensures registry.file == AckFile(h, old(registry.file), project, ticket, sessionId, workflow, pending, ok, error)
      ensures recentAck == old(recentAck)[project := Ack(sessionId, ticket, workflow, h.now)]
    {
      recentAck := recentAck[project := Ack(sessionId, ticket, workflow, h.now)];
      if !ok {
        var merged := registry.RecordFailure(h, AckFailure(project, ticket, sessionId, workflow, pending, error));
      } else if pending.Some? {
        var merged := registry.ClearFailure(h, pending.value);
      }
    }

    /** The guard around the tool's own execution. */
    method Guard(h: Host, session: string, p: PilotResult, legacy: Option<Record>) returns (outcome: Outcome)
      modifies registry
      ensures (registry.file, outcome) == WrapResult(h, old(registry.file), session, p, legacy)
    {
      outcome := Passed;
      var previous := ReadFor(h, registry.file, ResultProject(p), session);
      if previous.Some? && Failing(previous.value) && p.kind != "" && p.kind != "dispatch_subagent" {
        var merged := registry.ClearFailure(h, previous.value);
        return;
      }
      if p.kind == "dispatch_subagent" {
        var missing := NonBlank(JavaScript, p.remaining);
        if previous.Some? && previous.value.ticket == Trim(JavaScript, p.ticket) && Failing(previous.value) {
          if missing == [] {
            return Stalled(previous.value.ticket);
          }
          var merged := registry.ClearFailure(h, previous.value);
        }
        if Trim(JavaScript, p.ticket) != "" && ResultProject(p) != "" {
          var merged := registry.Remember(h, MirrorRecord(h, p, session, legacy));
        }
      }
    }
  }

  // ----- a failed acknowledgement blocks its ticket until something releases it

  /** What a dispatch is guarded for: its session, empty when it has none, its project as stored, its ticket. */
  datatype Target = Target(sessionId: string, project: string, ticket: string)

  /** The record that the guard of a target reads. */
  function Pick(s: seq<Record>, t: Target): Option<Record> {
    Chosen(s, t.project, t.sessionId)
  }

  /** The record read is the ticket's, and it carries a failure. */
  predicate Held(s: seq<Record>, t: Target) {
    Pick(s, t).Some? && Pick(s, t).value.ticket == t.ticket && Failing(Pick(s, t).value)
  }

  ghost predicate NoNewerThan(s: seq<Record>, now: int) {
    forall r :: r in s ==> r.ts <= now
  }

  predicate SameNames(a: Record, b: Record) {
    a.sessionId == b.sessionId && a.project == b.project && a.ticket == b.ticket
  }

  /** A record stored now would be read for the target instead of `r` or keep `r` from being read. */
  predicate Competes(n: Record, r: Record, t: Target) {
    && (t.sessionId == "" || n.sessionId == t.sessionId)
    && (t.project == "" || n.project == t.project || r.project != t.project)
  }

  /** A write made now lets the target go: it rewrites the record read and erases its failure, or it stores
      another record that competes with it, takes its key, or pushes it out of the file. */
  predicate WriteReleases(h: Host, s: seq<Record>, e: Record, t: Target) {
    var n := Normalize(h, Normalize(h, e));
    var others := Others(h, s, e);
    && Addressed(n)
    && Pick(s, t).Some?
    && var r := Pick(s, t).value;
       if SameNames(n, r) then e.lastAckError.Undefined? || e.lastAckError == Value("")
       else || Competes(n, r, t)
            || KeyText(n) == KeyText(r)
            || (|others| >= MAX_ENTRIES && others[|others| - 1] == r)
  }

  // ----- what is picked

  /** The records that come first for a named session. */
  function Exact(t: Target): Record -> bool {
    (r: Record) => r.sessionId == t.sessionId && (t.project == "" || r.project == t.project)
  }

  lemma PickNamed(s: seq<Record>, t: Target)
    requires t.sessionId != ""
    ensures var exact := Filter(s, Exact(t));
            Pick(s, t) == if exact != [] then Some(exact[0]) else Sole(Filter(s, OfSession(t.sessionId)))
  {
    if t.project != "" {
      FilterFilter(s, OfSession(t.sessionId), OfProject(t.project), Exact(t));
    } else {
      FilterSame(s, Exact(t), OfSession(t.sessionId));
    }
  }

  lemma PickUnnamed(s: seq<Record>, t: Target)
    requires t.sessionId == ""
    ensures var matches := if t.project != "" then Filter(s, OfProject(t.project)) else [];
            Pick(s, t) == if matches != [] then Sole(matches) else Sole(s)
  {
  }

  /** Whatever is picked is stored, and of the session when there is one. */
  lemma PickIsStored(s: seq<Record>, t: Target)
    requires Pick(s, t).Some?
    ensures var r := Pick(s, t).value;
            && r in s
            && (t.sessionId != "" ==> r.sessionId == t.sessionId)
            && (t.sessionId != "" ==> (Exact(t)(r) <==> Filter(s, Exact(t)) != []))
            && (t.sessionId == "" && t.project != "" ==>
                  (r.project == t.project <==> Filter(s, OfProject(t.project)) != []))
  {
    var r := Pick(s, t).value;
    FilterMember(s, Exact(t), r);
    FilterMember(s, OfSession(t.sessionId), r);
    FilterMember(s, OfProject(t.project), r);
    if t.sessionId != "" {
      PickNamed(s, t);
    } else {
      PickUnnamed(s, t);
    }
    hide Filter, Pick;
  }

  /** Without equal keys, the only record that passes a test is all that the test selects. */
  lemma {:induction false} FilterSole(s: seq<Record>, test: Record -> bool, r: Record)
    requires DistinctKeys(s) && r in s && test(r)
    requires forall x :: x in s && test(x) ==> x == r
    ensures Filter(s, test) == [r]
  {
    if s[0] == r {
      forall x | x in s[1..] ensures !test(x) {
        var i :| 0 <= i < |s[1..]| && s[1..][i] == x;
        assert KeyText(s[0]) != KeyText(s[i + 1]);
      }
      FilterNone(s[1..], test);
    } else {
      FilterSole(s[1..], test, r);
    }
  }

  lemma SoleIs(s: seq<Record>, test: Record -> bool, r: Record)
    requires DistinctKeys(s)
    ensures Sole(Filter(s, test)) == Some(r) <==> r in s && test(r) && forall x :: x in s && test(x) ==> x == r
  {
    var f := Filter(s, test);
    forall x ensures x in f <==> x in s && test(x) {
      FilterMember(s, test, x);
    }
    if r in s && test(r) && forall x :: x in s && test(x) ==> x == r {
      FilterSole(s, test, r);
    }
    if Sole(f) == Some(r) {
      assert f == [r];
      forall x | x in s && test(x) ensures x == r {
        assert x in f;
      }
    }
  }

  function Every(): Record -> bool {
    (r: Record) => true
  }

  lemma SoleOfAll(s: seq<Record>, r: Record)
    requires DistinctKeys(s)
    ensures Sole(s) == Some(r) <==> r in s && forall x :: x in s ==> x == r
  {
    FilterAll(s, Every());
    SoleIs(s, Every(), r);
  }

  /** The record is the only one of its project, or the only one of the file when the project has none. */
  predicate Alone(s: seq<Record>, project: string, r: Record) {
    && r in s
    && (|| (project != "" && r.project == project && forall x :: x in s && x.project == project ==> x == r)
        || ((project == "" || forall x :: x in s ==> x.project != project) && forall x :: x in s ==> x == r))
  }

  /** What is read without a session. */
  lemma UnnamedPickIff(s: seq<Record>, t: Target, r: Record)
    requires DistinctKeys(s) && t.sessionId == ""
    ensures Pick(s, t) == Some(r) <==> Alone(s, t.project, r)
  {
    SoleIs(s, OfProject(t.project), r);
    SoleOfAll(s, r);
    FilterEmptyIff(s, OfProject(t.project));
    PickUnnamed(s, t);
    hide Filter, Pick, Sole, DistinctKeys;
  }

  /** The guard reads exactly what is picked, for a named session and for none. */
  lemma HeldIsRead(h: Host, file: File, project: string, session: string, ticket: string)
    requires Valid(Entries(file))
    ensures ReadFor(h, file, project, session)
         == Pick(Entries(file), Target(Trim(JavaScript, session), NormalizeProject(h.cwd, project), ticket))
  {
    ReadIsChosen(h, file, project, session);
  }

  // ----- a part of the file

  /** A selection that loses some records but not the first that passes a test keeps that one first. */
  lemma {:induction false} FirstSurvives(s: seq<Record>, keep: Record -> bool, p: Record -> bool, both: Record -> bool)
    requires Filter(s, p) != []
    requires keep(Filter(s, p)[0])
    requires forall x :: x in s ==> both(x) == (keep(x) && p(x))
    ensures Filter(s, both) != [] && Filter(s, both)[0] == Filter(s, p)[0]
  {
    if !p(s[0]) {
      FirstSurvives(s[1..], keep, p, both);
    }
  }

  function Both(keep: Record -> bool, p: Record -> bool): Record -> bool {
    (r: Record) => keep(r) && p(r)
  }

  /** The sole record that passes a test stays so in every part that has it. */
  lemma SoleInPart(s: seq<Record>, part: seq<Record>, test: Record -> bool, r: Record)
    requires Filter(s, test) == [r] && DistinctKeys(part)
    requires r in part && forall x :: x in part ==> x in s
    ensures Filter(part, test) == [r]
  {
    FilterMember(s, test, r);
    forall x | x in part && test(x) ensures x == r {
      FilterMember(s, test, x);
    }
    FilterSole(part, test, r);
  }

  lemma NoneInPart(s: seq<Record>, part: seq<Record>, test: Record -> bool)
    requires Filter(s, test) == [] && forall x :: x in part ==> x in s
    ensures Filter(part, test) == []
  {
    FilterEmptyIff(s, test);
    FilterEmptyIff(part, test);
  }

  /** For a session, a part that keeps the first exact record, if there is one, gives the picked one again. */
  lemma PickOfPartNamed(s: seq<Record>, part: seq<Record>, t: Target, r: Record)
    requires Pick(s, t) == Some(r) && DistinctKeys(part) && t.sessionId != ""
    requires r in part && forall x :: x in part ==> x in s
    requires Filter(s, Exact(t)) != [] ==>
               Filter(part, Exact(t)) != [] && Filter(part, Exact(t))[0] == Filter(s, Exact(t))[0]
    ensures Pick(part, t) == Some(r)
  {
    PickNamed(s, t);
    PickNamed(part, t);
    hide Pick, Filter, Exact, DistinctKeys;
    if Filter(s, Exact(t)) == [] {
      NoneInPart(s, part, Exact(t));
      SoleInPart(s, part, OfSession(t.sessionId), r);
    }
  }

  /** Without a session the order does not matter. */
  lemma PickOfPartUnnamed(s: seq<Record>, part: seq<Record>, t: Target, r: Record)
    requires Pick(s, t) == Some(r) && DistinctKeys(part) && t.sessionId == ""
    requires r in part && forall x :: x in part ==> x in s
    ensures Pick(part, t) == Some(r)
  {
    PickUnnamed(s, t);
    PickUnnamed(part, t);
    FilterAll(s, Every());
    FilterAll(part, Every());
    hide Pick, Filter, DistinctKeys;
    if t.project != "" && Filter(s, OfProject(t.project)) != [] {
      SoleInPart(s, part, OfProject(t.project), r);
    } else {
      if t.project != "" {
        NoneInPart(s, part, OfProject(t.project));
      }
      SoleInPart(s, part, Every(), r);
    }
  }

  lemma PickOfFilter(s: seq<Record>, keep: Record -> bool, t: Target, r: Record)
    requires Pick(s, t) == Some(r) && keep(r) && DistinctKeys(Filter(s, keep))
    ensures Pick(Filter(s, keep), t) == Some(r)
  {
    var part := Filter(s, keep);
    PickIsStored(s, t);
    forall x ensures x in part <==> x in s && keep(x) {
      FilterMember(s, keep, x);
    }
    if Filter(s, Exact(t)) != [] && t.sessionId != "" {
      PickNamed(s, t);
      FirstSurvives(s, keep, Exact(t), Both(keep, Exact(t)));
      FilterFilter(s, keep, Exact(t), Both(keep, Exact(t)));
    }
    hide Filter, Exact, DistinctKeys, Pick;
    if t.sessionId != "" {
      PickOfPartNamed(s, part, t, r);
    } else {
      PickOfPartUnnamed(s, part, t, r);
    }
  }

  lemma PickOfPrefix(s: seq<Record>, n: nat, t: Target, r: Record)
    requires n <= |s| && Pick(s, t) == Some(r) && r in s[..n] && DistinctKeys(s)
    ensures Pick(s[..n], t) == Some(r)
  {
    var part := s[..n];
    assert DistinctKeys(part);
    FilterPrefix(s, n, Exact(t));
    PickIsStored(s, t);
    FilterMember(part, Exact(t), r);
    hide Filter, Exact, DistinctKeys, Pick;
    if t.sessionId != "" {
      PickOfPartNamed(s, part, t, r);
    } else {
      PickOfPartUnnamed(s, part, t, r);
    }
  }

  // ----- a new record in front

  /** A new front record that does not compete leaves the picked one alone. */
  lemma PickBehindFront(m: Record, u: seq<Record>, t: Target, r: Record)
    requires Pick(u, t) == Some(r) && !Competes(m, r, t)
    ensures Pick([m] + u, t) == Some(r)
  {
    PickIsStored(u, t);
    FilterFirst(m, u, Exact(t));
    FilterFirst(m, u, OfSession(t.sessionId));
    FilterFirst(m, u, OfProject(t.project));
    if t.sessionId != "" {
      PickNamed(u, t);
      PickNamed([m] + u, t);
    } else {
      PickUnnamed(u, t);
      PickUnnamed([m] + u, t);
    }
    hide Filter, Pick;
  }

  /** A front record with the names of the picked one, which is gone, takes its place. */
  lemma PickRewritten(s: seq<Record>, kept: seq<Record>, m: Record, t: Target, r: Record)
    requires Pick(s, t) == Some(r) && SameNames(m, r)
    requires forall x :: x in kept ==> x in s && x != r
    ensures Pick([m] + kept, t) == Some(m)
  {
    PickIsStored(s, t);
    FilterFirst(m, kept, Exact(t));
    FilterFirst(m, kept, OfSession(t.sessionId));
    FilterFirst(m, kept, OfProject(t.project));
    if t.sessionId != "" {
      PickNamed(s, t);
      PickNamed([m] + kept, t);
      hide Filter, Pick;
      if Filter(s, Exact(t)) == [] {
        NoneInPart(s, kept, Exact(t));
        GoneFromPart(s, kept, OfSession(t.sessionId), r);
      }
    } else {
      PickUnnamed(s, t);
      PickUnnamed([m] + kept, t);
      FilterAll(s, Every());
      hide Filter, Pick;
      if t.project != "" && Filter(s, OfProject(t.project)) != [] {
        GoneFromPart(s, kept, OfProject(t.project), r);
      } else {
        if t.project != "" {
          NoneInPart(s, kept, OfProject(t.project));
        }
        FilterAll(kept, Every());
        GoneFromPart(s, kept, Every(), r);
      }
    }
  }

  lemma GoneFromPart(s: seq<Record>, part: seq<Record>, test: Record -> bool, r: Record)
    requires Filter(s, test) == [r] && forall x :: x in part ==> x in s && x != r
    ensures Filter(part, test) == []
  {
    forall x | x in part ensures !test(x) {
      FilterMember(s, test, x);
    }
    FilterNone(part, test);
  }

  // ----- writes

  lemma OthersAreOlder(h: Host, s: seq<Record>, e: Record)
    requires NoNewerThan(s, h.now)
    ensures NoNewerThan(Others(h, s, e), h.now)
  {
    forall y | y in Others(h, s, e) ensures y.ts <= h.now {
      FilterMember(s, OtherKey(h, Key(h, Normalize(h, e))), y);
    }
  }

  /** On a valid file a write made now puts the merged record in front of the kept records of other keys. */
  lemma WriteNow(h: Host, file: File, e: Record)
    requires Valid(Entries(file)) && h.now != 0 && e.ts == h.now
    requires Addressed(Normalize(h, e)) && NoNewerThan(Entries(file), h.now)
    ensures var s := Entries(file);
            Entries(RememberFile(h, file, e)) == [Written(Merged(h, s, e))] + Kept(h, s, e)
    ensures NoNewerThan(Entries(RememberFile(h, file, e)), h.now)
  {
    hide RememberFile, Merged, NormalizeProject, Trim, KeyText, Valid, Filter, Insert, Kept, Others;
    var s := Entries(file);
    OthersAreOlder(h, s, e);
    OthersAreStored(h, s, e);
    NewestInFront(h, file, e);
    MergedShape(h, s, e);
  }

  lemma AddressedTwice(h: Host, e: Record)
    ensures Addressed(Normalize(h, Normalize(h, e))) == Addressed(Normalize(h, e))
  {
    NormalShape(h.cwd, e.project);
    var p := NormalizeProject(h.cwd, e.project);
    NormalShape(h.cwd, p);
    if p != "" {
      TrimKeepsFirst(JavaScript, p);
    }
    TrimProperties(JavaScript, e.ticket);
    TrimProperties(JavaScript, Trim(JavaScript, e.ticket));
  }

  /** Session, project, ticket and key text of the record a write stores. */
  lemma StoredNames(h: Host, s: seq<Record>, e: Record)
    requires Addressed(Normalize(h, e))
    ensures var n, m := Normalize(h, Normalize(h, e)), Written(Merged(h, s, e));
            && Addressed(n)
            && SameNames(m, n)
            && KeyText(m) == KeyText(n) == Key(h, Normalize(h, e))
  {
    MergedShape(h, s, e);
    AddressedTwice(h, e);
    TrimProperties(JavaScript, e.ticket);
    TrimProperties(JavaScript, e.sessionId);
    TrimProperties(JavaScript, Trim(JavaScript, e.ticket));
    TrimProperties(JavaScript, Trim(JavaScript, e.sessionId));
  }

  /** The other records are valid, and those under other keys are among them. */
  lemma OthersAre(h: Host, file: File, e: Record)
    requires Valid(Entries(file)) && Addressed(Normalize(h, e))
    ensures var s := Entries(file);
            var rest := Others(h, s, e);
            && DistinctKeys(rest) && |rest| <= |s|
            && forall r :: r in rest <==> r in s && KeyText(r) != Key(h, Normalize(h, e))
  {
    var s := Entries(file);
    var wanted := Key(h, Normalize(h, e));
    FilterLength(s, OtherKey(h, wanted));
    FilterValid(s, OtherKey(h, wanted));
    forall r ensures r in Others(h, s, e) <==> r in s && KeyText(r) != wanted {
      FilterMember(s, OtherKey(h, wanted), r);
      if r in s {
        SettledNormal(h, r);
      }
    }
  }

  /** The failure a write under the stored record's names leaves on it. */
  lemma OwnFailure(h: Host, file: File, e: Record, r: Record)
    requires Valid(Entries(file)) && h.now != 0
    requires r in Entries(file) && Failing(r)
    requires Addressed(Normalize(h, e))
    requires Key(h, Normalize(h, e)) == KeyText(r)
    ensures Failing(Written(Merged(h, Entries(file), e)))
       <==> !(e.lastAckError.Undefined? || e.lastAckError == Value(""))
  {
    var s := Entries(file);
    RememberedFields(h, file, e);
    SettledNormal(h, r);
    var wanted := Key(h, Normalize(h, e));
    FindKeyProperties(h, s, wanted);
    var prior := FindKey(h, s, wanted).value;
    SettledNormal(h, prior);
    assert prior == r;
  }

  lemma SameNamesSameKey(a: Record, b: Record)
    requires SameNames(a, b)
    ensures KeyText(a) == KeyText(b)
  {
  }

  /** A write under the names of the record read: it is read afterwards. */
  lemma RewriteIsRead(h: Host, file: File, e: Record, t: Target)
    requires Valid(Entries(file)) && h.now != 0 && e.ts == h.now
    requires NoNewerThan(Entries(file), h.now) && Pick(Entries(file), t).Some?
    requires Addressed(Normalize(h, e))
    requires SameNames(Normalize(h, Normalize(h, e)), Pick(Entries(file), t).value)
    ensures Pick(Entries(RememberFile(h, file, e)), t) == Some(Written(Merged(h, Entries(file), e)))
    ensures Key(h, Normalize(h, e)) == KeyText(Pick(Entries(file), t).value)
  {
    hide RememberFile, Merged, Normalize, KeyText, Key, Others, Kept, Valid, Written, Addressed, NoNewerThan, Pick;
    var s := Entries(file);
    var r := Pick(s, t).value;
    PickIsStored(s, t);
    WriteNow(h, file, e);
    StoredNames(h, s, e);
    OthersAre(h, file, e);
    OthersAreStored(h, s, e);
    var m := Written(Merged(h, s, e));
    SameNamesSameKey(m, r);
    PickRewritten(s, Kept(h, s, e), m, t, r);
  }

  /** It is held afterwards exactly when the write does not erase the failure. */
  lemma RewriteIsPicked(h: Host, file: File, e: Record, t: Target)
    requires Valid(Entries(file)) && h.now != 0 && e.ts == h.now
    requires NoNewerThan(Entries(file), h.now) && Held(Entries(file), t)
    requires Addressed(Normalize(h, e))
    requires SameNames(Normalize(h, Normalize(h, e)), Pick(Entries(file), t).value)
    ensures Pick(Entries(RememberFile(h, file, e)), t) == Some(Written(Merged(h, Entries(file), e)))
    ensures Held(Entries(RememberFile(h, file, e)), t)
       <==> !(e.lastAckError.Undefined? || e.lastAckError == Value(""))
  {
    hide RememberFile, Merged, Normalize, KeyText, Key, Others, Kept, Valid, Written, Addressed, NoNewerThan, Pick, Failing;
    var s := Entries(file);
    var r := Pick(s, t).value;
    PickIsStored(s, t);
    StoredNames(h, s, e);
    RewriteIsRead(h, file, e, t);
    OwnFailure(h, file, e, r);
  }

  lemma BystanderFacts(h: Host, s: seq<Record>, e: Record, t: Target)
    requires Pick(s, t).Some? && Addressed(Normalize(h, e)) && !WriteReleases(h, s, e, t)
    requires !SameNames(Normalize(h, Normalize(h, e)), Pick(s, t).value)
    ensures var m, r := Written(Merged(h, s, e)), Pick(s, t).value;
            var others := Others(h, s, e);
            && !Competes(m, r, t)
            && KeyText(r) != Key(h, Normalize(h, e))
            && (|others| >= MAX_ENTRIES ==> others[|others| - 1] != r)
  {
    hide Merged, Written, Normalize, Key, KeyText, Pick, Others, Addressed;
    StoredNames(h, s, e);
  }

  /** A write under other names that does not compete, displace or evict: the same record is read. */
  lemma BystanderIsIgnored(h: Host, file: File, e: Record, t: Target)
    requires Valid(Entries(file)) && h.now != 0 && e.ts == h.now
    requires NoNewerThan(Entries(file), h.now) && Pick(Entries(file), t).Some?
    requires Addressed(Normalize(h, e))
    requires !SameNames(Normalize(h, Normalize(h, e)), Pick(Entries(file), t).value)
    requires !WriteReleases(h, Entries(file), e, t)
    ensures Pick(Entries(RememberFile(h, file, e)), t) == Pick(Entries(file), t)
  {
    hide RememberFile, Merged, Normalize, KeyText, Key, Valid, Written, Addressed, NoNewerThan, Pick, Failing, Competes,
         SameNames, WriteReleases, Kept, Others;
    var s := Entries(file);
    var r := Pick(s, t).value;
    BystanderFacts(h, s, e, t);
    PickIsStored(s, t);
    WriteNow(h, file, e);
    KeptPick(h, file, e, t, r);
    PickBehindFront(Written(Merged(h, s, e)), Kept(h, s, e), t, r);
  }

  lemma OthersPick(h: Host, file: File, e: Record, t: Target, r: Record)
    requires Valid(Entries(file)) && Addressed(Normalize(h, e))
    requires Pick(Entries(file), t) == Some(r) && r in Entries(file)
    requires KeyText(r) != Key(h, Normalize(h, e))
    ensures Pick(Others(h, Entries(file), e), t) == Some(r) && r in Others(h, Entries(file), e)
    ensures DistinctKeys(Others(h, Entries(file), e))
  {
    hide Pick, Normalize, KeyText, Settled, Filter, DistinctKeys;
    OthersAre(h, file, e);
    SettledNormal(h, r);
    PickOfFilter(Entries(file), OtherKey(h, Key(h, Normalize(h, e))), t, r);
  }

  lemma KeptPick(h: Host, file: File, e: Record, t: Target, r: Record)
    requires Valid(Entries(file)) && Addressed(Normalize(h, e))
    requires Pick(Entries(file), t) == Some(r) && r in Entries(file)
    requires KeyText(r) != Key(h, Normalize(h, e))
    requires var others := Others(h, Entries(file), e);
             |others| >= MAX_ENTRIES ==> others[|others| - 1] != r
    ensures Pick(Kept(h, Entries(file), e), t) == Some(r)
  {
    hide Others, Pick, Normalize, Key, KeyText, Settled, DistinctKeys, Addressed;
    var rest := Others(h, Entries(file), e);
    OthersPick(h, file, e, t, r);
    OthersAre(h, file, e);
    if |rest| >= MAX_ENTRIES {
      var n := MAX_ENTRIES - 1;
      assert rest == rest[..n] + [rest[n]];
      PickOfPrefix(rest, n, t, r);
    }
  }

  lemma WriteKeepsHeld(h: Host, file: File, e: Record, t: Target)
    requires Valid(Entries(file)) && h.now != 0 && e.ts == h.now && Settles(h, e.project)
    requires NoNewerThan(Entries(file), h.now) && Held(Entries(file), t)
    requires !WriteReleases(h, Entries(file), e, t)
    ensures Held(Entries(RememberFile(h, file, e)), t)
    ensures NoNewerThan(Entries(RememberFile(h, file, e)), h.now)
    ensures Valid(Entries(RememberFile(h, file, e)))
  {
    RememberKeepsValid(h, file, e);
    if Addressed(Normalize(h, e)) {
      WriteNow(h, file, e);
      AddressedTwice(h, e);
      hide RememberFile, Merged, Normalize, KeyText, Valid, NoNewerThan, Pick, Failing, Competes, Kept, Others;
      if SameNames(Normalize(h, Normalize(h, e)), Pick(Entries(file), t).value) {
        RewriteIsPicked(h, file, e, t);
      } else {
        BystanderIsIgnored(h, file, e, t);
      }
    }
  }

  /** With plain names and room under the cap, no write for another session or project releases a target
      whose record is its project's own. */
  lemma ForeignWriteNeverReleases(h: Host, s: seq<Record>, e: Record, t: Target)
    requires Valid(s) && |s| < MAX_ENTRIES && Pick(s, t).Some?
    requires forall r :: r in s ==> PlainNames(r)
    requires PlainNames(Normalize(h, Normalize(h, e)))
    requires var n, r := Normalize(h, Normalize(h, e)), Pick(s, t).value;
             || (t.sessionId != "" && n.sessionId != t.sessionId)
             || (t.project != "" && r.project == t.project && n.project != t.project)
    ensures !WriteReleases(h, s, e, t)
  {
    var n, r := Normalize(h, Normalize(h, e)), Pick(s, t).value;
    PickIsStored(s, t);
    FilterLength(s, OtherKey(h, Key(h, Normalize(h, e))));
    hide Normalize, Pick, Valid, KeyText, PlainNames;
    KeyTextInjective(n, r);
  }

  /** With plain names and room under the cap, a write lets a target whose record is its project's own go
      exactly under `WriteReleases`. */
  lemma OwnWrite(h: Host, file: File, e: Record, t: Target)
    requires Valid(Entries(file)) && h.now != 0 && e.ts == h.now && |Entries(file)| < MAX_ENTRIES
    requires NoNewerThan(Entries(file), h.now) && Held(Entries(file), t)
    requires Addressed(Normalize(h, e)) && t.project != "" && Pick(Entries(file), t).value.project == t.project
    requires PlainNames(Normalize(h, Normalize(h, e))) && forall r :: r in Entries(file) ==> PlainNames(r)
    ensures Held(Entries(RememberFile(h, file, e)), t) <==> !WriteReleases(h, Entries(file), e, t)
  {
    var s := Entries(file);
    var n, r := Normalize(h, Normalize(h, e)), Pick(s, t).value;
    PickIsStored(s, t);
    AddressedTwice(h, e);
    hide RememberFile, Merged, Normalize, KeyText, Key, Valid, NoNewerThan, Pick, Failing, Others, PlainNames, Addressed;
    if SameNames(n, r) {
      RewriteIsPicked(h, file, e, t);
    } else if !WriteReleases(h, s, e, t) {
      BystanderIsIgnored(h, file, e, t);
    } else {
      OthersAre(h, file, e);
      KeyTextInjective(n, r);
      StoredNames(h, s, e);
      CompetitorIsRead(h, file, e, t, r);
    }
  }

  /** A competing record of the target's own project is read instead, or keeps anything from being read. */
  lemma CompetitorIsRead(h: Host, file: File, e: Record, t: Target, r: Record)
    requires Valid(Entries(file)) && h.now != 0 && e.ts == h.now && |Entries(file)| < MAX_ENTRIES
    requires NoNewerThan(Entries(file), h.now) && Addressed(Normalize(h, e))
    requires Pick(Entries(file), t) == Some(r) && r.project == t.project != "" && r.ticket == t.ticket
    requires KeyText(r) != Key(h, Normalize(h, e))
    requires var n := Normalize(h, Normalize(h, e)); Competes(n, r, t) && !SameNames(n, r)
    ensures !Held(Entries(RememberFile(h, file, e)), t)
  {
    var s := Entries(file);
    var m, kept := Written(Merged(h, s, e)), Kept(h, s, e);
    StoredNames(h, s, e);
    PickIsStored(s, t);
    WriteNow(h, file, e);
    OthersAre(h, file, e);
    assert r in kept;
    hide RememberFile, Merged, Normalize, KeyText, Key, Valid, NoNewerThan, Pick, Failing, Others, Addressed, Written, Kept;
    if t.sessionId != "" {
      PickNamed([m] + kept, t);
      FilterFirst(m, kept, Exact(t));
    } else {
      PickUnnamed([m] + kept, t);
      FilterFirst(m, kept, OfProject(t.project));
      FilterMember(kept, OfProject(t.project), r);
    }
    hide Filter;
  }

  // ----- runs of the facade

  /** The steps other code can take between two calls. The record an acknowledgement found before
      its wait, and the acknowledgement context, are arbitrary: any interleaving may have produced them. */
  datatype Event =
    | Pilot(session: string, p: PilotResult, legacy: Option<Record>)
    | AckEnd(project: string, ticket: string, sessionId: string, workflow: string,
             pending: Option<Record>, ok: bool, error: string)
    | RememberPending(e: Record, ack: Option<Ack>)
    | ClearPending(project: string, hint: string, ack: Option<Ack>)
    | Notify(sessionId: string)

  datatype Moment = Moment(h: Host, ev: Event)

  function Apply(file: File, m: Moment): (File, Outcome) {
    match m.ev
    case Pilot(session, p, legacy) => WrapResult(m.h, file, session, p, legacy)
    case AckEnd(project, ticket, sessionId, workflow, pending, ok, error) =>
      (AckFile(m.h, file, project, ticket, sessionId, workflow, pending, ok, error), Passed)
    case RememberPending(e, ack) => (RememberFile(m.h, file, PendingEntry(e, ack)), Passed)
    case ClearPending(project, hint, ack) => (ClearFile(m.h, file, project, hint, ack), Passed)
    case Notify(sessionId) => (ConsumeFile(m.h, file, sessionId).0, Passed)
  }

  /** The clock runs, records are remembered with the current time, projects are safe to store. */
  predicate Regular(m: Moment) {
    && m.h.now != 0
    && match m.ev
       case Pilot(_, p, _) => Settles(m.h, ResultProject(p))
       case AckEnd(project, _, _, _, pending, ok, _) =>
         if ok then pending.Some? ==> Settles(m.h, pending.value.project) else Settles(m.h, project)
       case RememberPending(e, _) => e.ts == m.h.now && Settles(m.h, e.project)
       case ClearPending(_, _, _) => true
       case Notify(_) => true
  }

  /** What a dispatch is guarded for. */
  function DispatchTarget(m: Moment): Target
    requires m.ev.Pilot?
  {
    Target(Trim(JavaScript, m.ev.session), NormalizeProject(m.h.cwd, ResultProject(m.ev.p)), Trim(JavaScript, m.ev.p.ticket))
  }

  /** A dispatch with no slice left to send. */
  predicate CompleteDispatch(m: Moment) {
    m.ev.Pilot? && m.ev.p.kind == "dispatch_subagent" && NonBlank(JavaScript, m.ev.p.remaining) == []
  }

  predicate DispatchOf(m: Moment, t: Target) {
    CompleteDispatch(m) && DispatchTarget(m) == t
  }

  /** The step releases the target: by what it writes, or by a removal that takes the record read. Writes
      are a successful acknowledgement, a host step that is not a dispatch, a dispatch that is let
      through, a remembered dispatch, and a failed acknowledgement. */
  ghost predicate Releases(file: File, m: Moment, t: Target) {
    var s := Entries(file);
    match m.ev
    case Pilot(session, p, legacy) =>
      var previous := ReadFor(m.h, file, ResultProject(p), session);
      if previous.Some? && Failing(previous.value) && p.kind != "" && !IsDispatch(p) then
        WriteReleases(m.h, s, ClearedRecord(m.h, previous.value), t)
      else if !IsDispatch(p) || (SameFailing(previous, p) && NonBlank(JavaScript, p.remaining) == []) then
        false
      else
        var cleared := if SameFailing(previous, p) then RememberFile(m.h, file, ClearedRecord(m.h, previous.value)) else file;
        || (SameFailing(previous, p) && WriteReleases(m.h, s, ClearedRecord(m.h, previous.value), t))
        || (Trim(JavaScript, p.ticket) != "" && ResultProject(p) != ""
            && WriteReleases(m.h, Entries(cleared), MirrorRecord(m.h, p, session, legacy), t))
    case AckEnd(project, ticket, sessionId, workflow, pending, ok, error) =>
      if !ok then
        WriteReleases(m.h, s, FailureRecord(m.h, file, AckFailure(project, ticket, sessionId, workflow, pending, error)), t)
      else
        pending.Some? && WriteReleases(m.h, s, ClearedRecord(m.h, pending.value), t)
    case RememberPending(e, ack) => WriteReleases(m.h, s, PendingEntry(e, ack), t)
    case ClearPending(project, hint, ack) =>
      Pick(s, t).Some? && Pick(s, t).value !in Entries(ClearFile(m.h, file, project, hint, ack))
    case Notify(_) => false
  }

  lemma ReadIsStored(h: Host, file: File, project: string, session: string)
    requires Valid(Entries(file))
    ensures var got := ReadFor(h, file, project, session);
            got.Some? ==> got.value in Entries(file) && Settled(got.value)
  {
    LoadValid(h, file);
    var s := Entries(file);
    var got := ReadFor(h, file, project, session);
    var p := NormalizeProject(h.cwd, project);
    var sid := Trim(JavaScript, session);
    if got.Some? {
      if sid != "" {
        ReadForOwnSession(h, file, project, session);
      } else {
        FilterMember(s, OfProject(p), got.value);
      }
    }
  }

  lemma SettledSettles(h: Host, r: Record)
    requires Settled(r)
    ensures Settles(h, r.project)
  {
    CanonicalIsFixedPoint(h.cwd, r.project);
  }

  lemma PilotKeepsHeld(file: File, m: Moment, t: Target)
    requires Valid(Entries(file)) && Held(Entries(file), t) && NoNewerThan(Entries(file), m.h.now)
    requires m.ev.Pilot? && Regular(m) && !Releases(file, m, t)
    ensures var after := Entries(Apply(file, m).0);
            Valid(after) && Held(after, t) && NoNewerThan(after, m.h.now)
  {
    var Pilot(session, p, legacy) := m.ev;
    var previous := ReadFor(m.h, file, ResultProject(p), session);
    ReadIsStored(m.h, file, ResultProject(p), session);
    if previous.Some? {
      SettledSettles(m.h, previous.value);
    }
    if previous.Some? && Failing(previous.value) && p.kind != "" && !IsDispatch(p) {
      WriteKeepsHeld(m.h, file, ClearedRecord(m.h, previous.value), t);
    } else if IsDispatch(p) && !(SameFailing(previous, p) && NonBlank(JavaScript, p.remaining) == []) {
      var cleared := file;
      if SameFailing(previous, p) {
        cleared := RememberFile(m.h, file, ClearedRecord(m.h, previous.value));
        WriteKeepsHeld(m.h, file, ClearedRecord(m.h, previous.value), t);
      }
      if Trim(JavaScript, p.ticket) != "" && ResultProject(p) != "" {
        WriteKeepsHeld(m.h, cleared, MirrorRecord(m.h, p, session, legacy), t);
      }
    }
  }

  /** Marking a record and selecting commute for tests that do not look at the report. */
  lemma {:induction false} FilterOfMark(s: seq<Record>, x: Record, now: int, test: Record -> bool)
    requires test(Reported(x, now)) == test(x)
    ensures Filter(Mark(s, x, now), test) == if test(x) then Mark(Filter(s, test), x, now) else Filter(s, test)
  {
    if s == [] {
    } else {
      FilterOfMark(s[1..], x, now, test);
    }
  }

  /** The record read after a mark is the one before, marked or not. */
  lemma MarkFront(s: seq<Record>, x: Record, now: int)
    ensures |Mark(s, x, now)| == |s|
    ensures s != [] ==> Mark(s, x, now)[0] == if s[0] == x then Reported(x, now) else s[0]
  {
  }

  lemma MarkKeepsHeld(s: seq<Record>, x: Record, now: int, t: Target)
    requires Held(s, t)
    ensures Held(Mark(s, x, now), t)
  {
    FilterOfMark(s, x, now, Exact(t));
    FilterOfMark(s, x, now, OfSession(t.sessionId));
    FilterOfMark(s, x, now, OfProject(t.project));
    MarkFront(s, x, now);
    MarkFront(Filter(s, Exact(t)), x, now);
    MarkFront(Filter(s, OfSession(t.sessionId)), x, now);
    MarkFront(Filter(s, OfProject(t.project)), x, now);
    if t.sessionId != "" {
      PickNamed(s, t);
      PickNamed(Mark(s, x, now), t);
    } else {
      PickUnnamed(s, t);
      PickUnnamed(Mark(s, x, now), t);
    }
    hide Filter, Mark, Pick, Exact;
  }

  /** A removal that spares the record read leaves it the record read. */
  lemma RemoveKeepsHeld(h: Host, file: File, project: string, sessionId: string, ticket: string, t: Target)
    requires Valid(Entries(file)) && Held(Entries(file), t) && NoNewerThan(Entries(file), h.now)
    requires Pick(Entries(file), t).value in Entries(RemoveFile(h, file, project, sessionId, ticket))
    ensures var after := Entries(RemoveFile(h, file, project, sessionId, ticket));
            Valid(after) && Held(after, t) && NoNewerThan(after, h.now)
  {
    var s := Entries(file);
    var p, sid, tid := NormalizeProject(h.cwd, project), Trim(JavaScript, sessionId), Trim(JavaScript, ticket);
    RemoveExact(h, file, project, sessionId, ticket);
    hide RemoveFile, NormalizeProject, Trim, Keeps, Pick, Failing;
    FilterMember(s, Keeps(p, sid, tid), Pick(s, t).value);
    PickOfFilter(s, Keeps(p, sid, tid), t, Pick(s, t).value);
  }

  /** Clearing a pending dispatch removes something from the registry or leaves it alone. */
  lemma ClearIsRemove(h: Host, file: File, project: string, hint: string, ack: Option<Ack>)
    returns (p: string, sid: string, tid: string)
    ensures ClearFile(h, file, project, hint, ack) == file
         || ClearFile(h, file, project, hint, ack) == RemoveFile(h, file, p, sid, tid)
  {
    hide ReadFor, RemoveFile;
    p, sid, tid := "", "", "";
    var current := ReadFor(h, file, project, if ack.Some? then ack.value.sessionId else hint);
    if current.Some? {
      p := OrElse(current.value.project, project);
      sid := OrElse(if ack.Some? then ack.value.sessionId else "", current.value.sessionId);
      tid := OrElse(if ack.Some? then ack.value.ticket else "", current.value.ticket);
    }
  }

  lemma ClearKeepsHeld(file: File, m: Moment, t: Target)
    requires Valid(Entries(file)) && Held(Entries(file), t) && NoNewerThan(Entries(file), m.h.now)
    requires m.ev.ClearPending? && !Releases(file, m, t)
    ensures var after := Entries(Apply(file, m).0);
            Valid(after) && Held(after, t) && NoNewerThan(after, m.h.now)
  {
    hide RemoveFile, ReadFor, Valid, NoNewerThan, Pick, ClearFile, Failing;
    var ClearPending(project, hint, ack) := m.ev;
    var p, sid, tid := ClearIsRemove(m.h, file, project, hint, ack);
    if ClearFile(m.h, file, project, hint, ack) != file {
      RemoveKeepsHeld(m.h, file, p, sid, tid, t);
    }
  }

  lemma NotifyKeepsHeld(file: File, h: Host, sessionId: string, t: Target)
    requires Valid(Entries(file)) && Held(Entries(file), t) && NoNewerThan(Entries(file), h.now)
    ensures var after := Entries(ConsumeFile(h, file, sessionId).0);
            Valid(after) && Held(after, t) && NoNewerThan(after, h.now)
  {
    var s := Entries(file);
    ConsumeTakesNewest(h, file, sessionId);
    var due := Due(s, Trim(JavaScript, sessionId));
    if due != [] {
      DueIs(s, Trim(JavaScript, sessionId));
      assert due[0] in due;
      hide ConsumeFile, Due, Held, Trim, NoNewerThan, Mark;
      MarkKeepsHeld(s, due[0], h.now, t);
      MarkNoNewer(s, due[0], h.now);
    }
  }

  lemma {:induction false} MarkNoNewer(s: seq<Record>, r: Record, now: int)
    requires NoNewerThan(s, now)
    ensures NoNewerThan(Mark(s, r, now), now)
  {
    if s == [] {
    } else {
      assert s[0] in s;
      MarkNoNewer(s[1..], r, now);
    }
  }

  lemma AckKeepsHeld(file: File, m: Moment, t: Target)
    requires Valid(Entries(file)) && Held(Entries(file), t) && NoNewerThan(Entries(file), m.h.now)
    requires m.ev.AckEnd? && Regular(m) && !Releases(file, m, t)
    ensures var after := Entries(Apply(file, m).0);
            Valid(after) && Held(after, t) && NoNewerThan(after, m.h.now)
  {
    hide RememberFile, WriteReleases, Held, Settles;
    var AckEnd(project, ticket, sessionId, workflow, pending, ok, error) := m.ev;
    if !ok {
      WriteKeepsHeld(m.h, file, FailureRecord(m.h, file, AckFailure(project, ticket, sessionId, workflow, pending, error)), t);
    } else if pending.Some? {
      WriteKeepsHeld(m.h, file, ClearedRecord(m.h, pending.value), t);
    }
  }

  /** One regular step that does not release the target keeps it held. */
  lemma StepKeepsHeld(file: File, m: Moment, t: Target)
    requires Valid(Entries(file)) && Held(Entries(file), t) && NoNewerThan(Entries(file), m.h.now)
    requires Regular(m) && !Releases(file, m, t)
    ensures var after := Entries(Apply(file, m).0);
            Valid(after) && Held(after, t) && NoNewerThan(after, m.h.now)
  {
    hide RememberFile, WriteReleases, Held, Valid, Settles, ConsumeFile, ClearFile, AckFile, WrapResult;
    match m.ev
    case Pilot(_, _, _) => PilotKeepsHeld(file, m, t);
    case AckEnd(_, _, _, _, _, _, _) => AckKeepsHeld(file, m, t);
    case RememberPending(e, ack) => WriteKeepsHeld(m.h, file, PendingEntry(e, ack), t);
    case ClearPending(_, _, _) => ClearKeepsHeld(file, m, t);
    case Notify(sessionId) => NotifyKeepsHeld(file, m.h, sessionId, t);
  }

  lemma StoredFails(h: Host, file: File, e: Record)
    requires Valid(Entries(file)) && h.now != 0 && Addressed(Normalize(h, e)) && Failing(e)
    ensures Failing(Written(Merged(h, Entries(file), e)))
  {
    RememberedFields(h, file, e);
  }

  /** A failing record in front is what its own session reads; without a session it is read exactly when
      no other record is of its project. */
  lemma FrontIsHeld(m: Record, kept: seq<Record>)
    requires Failing(m) && m.project != ""
    ensures m.sessionId != "" ==> Held([m] + kept, Target(m.sessionId, m.project, m.ticket))
    ensures Held([m] + kept, Target("", m.project, m.ticket)) <==> forall r :: r in kept ==> r.project != m.project
  {
    var own, none := Target(m.sessionId, m.project, m.ticket), Target("", m.project, m.ticket);
    FilterFirst(m, kept, Exact(own));
    FilterFirst(m, kept, OfProject(m.project));
    FilterEmptyIff(kept, OfProject(m.project));
    if m.sessionId != "" {
      PickNamed([m] + kept, own);
    }
    PickUnnamed([m] + kept, none);
    hide Filter, Pick;
  }

  lemma FailureWriteHolds(h: Host, file: File, e: Record)
    requires Valid(Entries(file)) && NoNewerThan(Entries(file), h.now) && h.now != 0
    requires e.ts == h.now && Settles(h, e.project) && Addressed(Normalize(h, e))
    requires e.lastAckError.Value? && e.lastAckError.value != ""
    ensures var after := Entries(RememberFile(h, file, e));
            var n := Normalize(h, Normalize(h, e));
            && Valid(after) && NoNewerThan(after, h.now)
            && (n.sessionId != "" ==> Held(after, Target(n.sessionId, n.project, n.ticket)))
            && (Held(after, Target("", n.project, n.ticket))
                <==> forall r :: r in Kept(h, Entries(file), e) ==> r.project != n.project)
  {
    hide RememberFile, Merged, Normalize, Others, Kept, Valid, Settles, KeyText, Written, Held, NoNewerThan;
    var s := Entries(file);
    RememberKeepsValid(h, file, e);
    WriteNow(h, file, e);
    StoredNames(h, s, e);
    StoredFails(h, file, e);
    FrontIsHeld(Written(Merged(h, s, e)), Kept(h, s, e));
  }

  /** A failure without a session is stored under the session of the record it found. */
  lemma FailureFields(h: Host, file: File, a: Failure)
    ensures var e := FailureRecord(h, file, a);
            var found := ReadFor(h, file, a.project, a.sessionId);
            && e.project == a.project && e.ticket == a.ticket && e.ts == h.now
            && e.sessionId == OrElse(a.sessionId, if found.Some? then found.value.sessionId else "")
            && e.lastAckError.Value? && e.lastAckError.value != ""
  {
  }

  /** A failed acknowledgement names the actor and the action of the dispatch it was for, else of the record it found. */
  lemma FailureActor(h: Host, file: File, project: string, ticket: string, sessionId: string, workflow: string,
                     pending: Option<Record>, error: string)
    ensures var e := FailureRecord(h, file, AckFailure(project, ticket, sessionId, workflow, pending, error));
            var found := ReadFor(h, file, project, sessionId);
            && (pending.Some? && pending.value.actor != "" ==> e.actor == pending.value.actor)
            && (pending.Some? && pending.value.action != "" ==> e.action == pending.value.action)
            && (pending.None? ==> e.actor == (if found.Some? then found.value.actor else "")
                                  && e.action == (if found.Some? then found.value.action else ""))
            && (workflow != "" ==> e.workflow == workflow)
  {
    hide ReadFor, ErrorText;
  }

  /** The names a record is stored under. */
  lemma StoredUnder(h: Host, e: Record)
    ensures var n := Normalize(h, Normalize(h, e));
            && n.sessionId == Trim(JavaScript, e.sessionId)
            && n.project == NormalizeProject(h.cwd, NormalizeProject(h.cwd, e.project))
            && n.ticket == Trim(JavaScript, e.ticket)
    ensures Addressed(Normalize(h, e)) <==> Trim(JavaScript, e.project) != "" && Trim(JavaScript, e.ticket) != ""
  {
    NormalShape(h.cwd, e.project);
    TrimProperties(JavaScript, e.sessionId);
    TrimProperties(JavaScript, Trim(JavaScript, e.sessionId));
    TrimProperties(JavaScript, e.ticket);
    TrimProperties(JavaScript, Trim(JavaScript, e.ticket));
  }

  /** The session a failed acknowledgement is stored under: its own, or that of the record it found. */
  function FailedSession(file: File, m: Moment): string
    requires m.ev.AckEnd?
  {
    var found := ReadFor(m.h, file, m.ev.project, m.ev.sessionId);
    Trim(JavaScript, OrElse(m.ev.sessionId, if found.Some? then found.value.sessionId else ""))
  }

  function FailedProject(m: Moment): string
    requires m.ev.AckEnd?
  {
    NormalizeProject(m.h.cwd, NormalizeProject(m.h.cwd, m.ev.project))
  }

  /** The record that the failed acknowledgement writes. */
  function FailedRecord(file: File, m: Moment): Record
    requires m.ev.AckEnd?
  {
    FailureRecord(m.h, file, AckFailure(m.ev.project, m.ev.ticket, m.ev.sessionId, m.ev.workflow, m.ev.pending, m.ev.error))
  }

  /** The target is what the failed acknowledgement blocks: its ticket for the session it is stored under,
      and for a dispatch without a session when no other kept record is of the project. */
  predicate Blocks(file: File, m: Moment, t: Target)
    requires m.ev.AckEnd?
  {
    && t.project == FailedProject(m) && t.ticket == Trim(JavaScript, m.ev.ticket)
    && if t.sessionId != "" then t.sessionId == FailedSession(file, m)
       else forall r :: r in Kept(m.h, Entries(file), FailedRecord(file, m)) ==> r.project != t.project
  }

  lemma FailedAckFile(file: File, m: Moment)
    requires m.ev.AckEnd? && !m.ev.ok
    ensures Apply(file, m).0 == RememberFile(m.h, file, FailedRecord(file, m))
  {
    hide RememberFile, FailureRecord;
  }

  /** The failed acknowledgement makes the targets it blocks held; a target without a session is held
      exactly when it is one of them. */
  lemma FailedAckHolds(file: File, m: Moment, t: Target)
    requires Valid(Entries(file)) && NoNewerThan(Entries(file), m.h.now)
    requires m.ev.AckEnd? && !m.ev.ok && Regular(m)
    requires Trim(JavaScript, m.ev.ticket) != "" && Trim(JavaScript, m.ev.project) != ""
    requires t.project == FailedProject(m) && t.ticket == Trim(JavaScript, m.ev.ticket)
    ensures var after := Entries(Apply(file, m).0);
            && Valid(after) && NoNewerThan(after, m.h.now)
            && (Blocks(file, m, t) ==> Held(after, t))
            && (t.sessionId == "" ==> (Held(after, t) <==> Blocks(file, m, t)))
  {
    hide RememberFile, Held, Valid, FailureRecord, NormalizeProject, Settles, Normalize, Addressed, Trim, Kept, NoNewerThan,
         Apply, ReadFor;
    var AckEnd(project, ticket, sessionId, workflow, pending, ok, error) := m.ev;
    var e := FailedRecord(file, m);
    FailureFields(m.h, file, AckFailure(project, ticket, sessionId, workflow, pending, error));
    StoredUnder(m.h, e);
    FailedAckFile(file, m);
    FailureWriteHolds(m.h, file, e);
  }

  /** The files along a run, the start included. */
  function Trace(file: File, run: seq<Moment>): (files: seq<File>)
    ensures |files| == |run| + 1 && files[0] == file
    decreases run
  {
    if run == [] then [file] else [file] + Trace(Apply(file, run[0]).0, run[1..])
  }

  /** The clock never goes back and every step is regular. */
  predicate RegularRun(run: seq<Moment>, since: int) {
    run == [] || (since <= run[0].h.now && Regular(run[0]) && RegularRun(run[1..], run[0].h.now))
  }

  ghost predicate NeverReleases(file: File, run: seq<Moment>, t: Target)
    decreases run
  {
    run == [] || (!Releases(file, run[0], t) && NeverReleases(Apply(file, run[0]).0, run[1..], t))
  }

  /** A complete dispatch is answered with a stall, and changes nothing, exactly when the record its guard
      reads is the ticket's and carries a failure. */
  lemma DispatchStalls(file: File, m: Moment)
    requires Valid(Entries(file)) && CompleteDispatch(m)
    ensures Apply(file, m).1.Stalled? <==> Held(Entries(file), DispatchTarget(m))
    ensures Held(Entries(file), DispatchTarget(m)) ==> Apply(file, m) == (file, Stalled(Trim(JavaScript, m.ev.p.ticket)))
  {
    HeldIsRead(m.h, file, ResultProject(m.ev.p), m.ev.session, Trim(JavaScript, m.ev.p.ticket));
    hide ReadFor, ResultProject, RememberFile, MirrorFile, Pick, Failing, Trim, NormalizeProject, NonBlank;
  }

  /** A complete dispatch without a session stalls exactly when a failing record of its ticket is the only
      record of the project, or the only record of the file when the project has none. */
  lemma UnnamedDispatchIff(file: File, m: Moment)
    requires Valid(Entries(file)) && CompleteDispatch(m) && Trim(JavaScript, m.ev.session) == ""
    ensures Apply(file, m).1.Stalled? <==>
            exists r :: r in Entries(file) && r.ticket == Trim(JavaScript, m.ev.p.ticket) && Failing(r)
                        && Alone(Entries(file), NormalizeProject(m.h.cwd, ResultProject(m.ev.p)), r)
  {
    DispatchStalls(file, m);
    var s, t := Entries(file), DispatchTarget(m);
    hide Apply, Failing, Alone, Pick, DistinctKeys, NormalizeProject, Trim;
    if Pick(s, t).Some? {
      UnnamedPickIff(s, t, Pick(s, t).value);
      AloneIsStored(s, t.project, Pick(s, t).value);
    }
    if r :| r in s && r.ticket == t.ticket && Failing(r) && Alone(s, t.project, r) {
      UnnamedPickIff(s, t, r);
    }
  }

  lemma AloneIsStored(s: seq<Record>, project: string, r: Record)
    requires Alone(s, project, r)
    ensures r in s
  {
  }

  lemma TwoAreNotAlone(s: seq<Record>, project: string, f: Record, a: Record)
    requires f in s && a in s && f != a && f.project == project == a.project
    ensures forall r :: !Alone(s, project, r)
  {
  }

  /** Two records of a project, of whatever sessions: without a session every dispatch for it goes through. */
  lemma TwoRecordsLetThrough(file: File, m: Moment, f: Record, a: Record)
    requires Valid(Entries(file)) && CompleteDispatch(m) && Trim(JavaScript, m.ev.session) == ""
    requires f in Entries(file) && a in Entries(file) && f != a
    requires f.project == a.project == NormalizeProject(m.h.cwd, ResultProject(m.ev.p))
    ensures Apply(file, m).1 == Passed
  {
    hide *;
    UnnamedDispatchIff(file, m);
    TwoAreNotAlone(Entries(file), f.project, f, a);
  }

  /** The failing record of a ticket and a newer or older record of a session with the same project: the
      ticket's own session-less dispatch goes through although its acknowledgement failed. */
  lemma SecondRecordLetsThrough(h: Host, f: Record, a: Record, session: string, p: PilotResult, legacy: Option<Record>)
    requires Valid([f, a]) && f.project == a.project && f.sessionId == "" && a.sessionId != "" && Failing(f)
    requires IsDispatch(p) && NonBlank(JavaScript, p.remaining) == [] && Trim(JavaScript, session) == ""
    requires NormalizeProject(h.cwd, ResultProject(p)) == f.project && Trim(JavaScript, p.ticket) == f.ticket
    ensures WrapResult(h, Some([f, a]), session, p, legacy).1 == Passed
  {
    hide WrapResult, Valid, Failing, NormalizeProject, ResultProject, Trim, NonBlank;
    var s := [f, a];
    assert a in s && f in s;
    TwoRecordsLetThrough(Some(s), Moment(h, Pilot(session, p, legacy)), f, a);
  }

  lemma TraceStep(file: File, run: seq<Moment>, k: nat)
    requires run != [] && k < |run|
    ensures var next := Apply(file, run[0]).0;
            && Trace(file, run)[k + 1] == Trace(next, run[1..])[k]
            && Trace(file, run)[0] == file && Trace(file, run)[1] == next
    ensures k > 0 ==> run[1..][k - 1] == run[k]
  {
    hide Apply;
  }

  lemma RunStep(file: File, run: seq<Moment>, t: Target, since: int)
    requires run != [] && RegularRun(run, since) && NeverReleases(file, run, t)
    requires NoNewerThan(Entries(file), since)
    ensures Regular(run[0]) && !Releases(file, run[0], t) && NoNewerThan(Entries(file), run[0].h.now)
    ensures RegularRun(run[1..], run[0].h.now) && NeverReleases(Apply(file, run[0]).0, run[1..], t)
  {
    hide Regular, Releases, Apply;
  }

  /** While nothing releases the target, every complete dispatch guarded for it is answered with a stall
      and changes nothing. With `FailedAckHolds` this is the promise that a ticket is not dispatched
      again after its acknowledgement failed. */
  lemma {:induction false} NoRedispatch(file: File, run: seq<Moment>, t: Target, since: int, i: nat)
    requires Valid(Entries(file)) && Held(Entries(file), t) && NoNewerThan(Entries(file), since)
    requires RegularRun(run, since) && NeverReleases(file, run, t)
    requires i < |run| && DispatchOf(run[i], t)
    ensures var files := Trace(file, run);
            && Apply(files[i], run[i]) == (files[i], Stalled(t.ticket))
            && files[i + 1] == files[i]
    decreases run
  {
    hide Apply, Releases, Held, Valid, Regular, NoNewerThan, RegularRun, NeverReleases, Trace, CompleteDispatch, Trim,
         NormalizeProject, ResultProject;
    RunStep(file, run, t, since);
    TraceStep(file, run, i);
    if i == 0 {
      DispatchStalls(file, run[0]);
    } else {
      var next := Apply(file, run[0]).0;
      StepKeepsHeld(file, run[0], t);
      TraceStep(file, run, i - 1);
      NoRedispatch(next, run[1..], t, run[0].h.now, i - 1);
    }
  }

  /** The promise in one statement: from a failed acknowledgement on, in every run whose steps do not
      release a target it blocks, every complete dispatch guarded for that target is answered with a stall
      and changes nothing. */
  lemma FailedAckBlocksDispatch(file: File, failed: Moment, t: Target, run: seq<Moment>, i: nat)
    requires Valid(Entries(file)) && NoNewerThan(Entries(file), failed.h.now)
    requires failed.ev.AckEnd? && !failed.ev.ok && Regular(failed)
    requires Trim(JavaScript, failed.ev.ticket) != "" && Trim(JavaScript, failed.ev.project) != ""
    requires Blocks(file, failed, t)
    requires RegularRun(run, failed.h.now) && NeverReleases(Apply(file, failed).0, run, t)
    requires i < |run| && DispatchOf(run[i], t)
    ensures var files := Trace(Apply(file, failed).0, run);
            && Apply(files[i], run[i]) == (files[i], Stalled(t.ticket))
            && files[i + 1] == files[i]
  {
    hide Apply, Releases, Held, Valid, Regular, DispatchOf, Trim, NormalizeProject, RegularRun, NeverReleases, Trace,
         NoNewerThan;
    FailedAckHolds(file, failed, t);
    NoRedispatch(Apply(file, failed).0, run, t, failed.h.now, i);
  }

  // ----- what lets a ticket go

  /** A record with the names of a stored one is stored under them. */
  lemma NamesOfStored(h: Host, e: Record, r: Record)
    requires Settled(r) && SameNames(e, r)
    ensures SameNames(Normalize(h, Normalize(h, e)), r) && Addressed(Normalize(h, e)) && Settles(h, e.project)
  {
    SettledNormal(h, r);
    CanonicalIsFixedPoint(h.cwd, r.project);
    TrimProperties(JavaScript, r.ticket);
    TrimProperties(JavaScript, r.sessionId);
  }

  /** Clearing the failure of the record read: it stands in front, clean, and every other record stays. */
  lemma ClearedFile(h: Host, file: File, e: Record, t: Target, r: Record)
    requires Valid(Entries(file)) && h.now != 0 && NoNewerThan(Entries(file), h.now)
    requires Pick(Entries(file), t) == Some(r) && SameNames(e, r)
    ensures var s1 := Entries(RememberFile(h, file, ClearedRecord(h, e)));
            && Valid(s1) && NoNewerThan(s1, h.now)
            && s1 != [] && SameNames(s1[0], r) && !Failing(s1[0])
            && Pick(s1, t) == Some(s1[0])
            && forall y :: y in s1[1..] <==> y in Entries(file) && y != r
  {
    hide RememberFile, Merged, Normalize, KeyText, Key, Others, Kept, Written, Addressed, NoNewerThan, Pick, Failing,
         Settles, ClearedRecord, Settled;
    var s, c := Entries(file), ClearedRecord(h, e);
    PickIsStored(s, t);
    ClearedNames(h, e);
    NamesOfStored(h, c, r);
    NamesOfStored(h, e, r);
    ClearedIsClean(h, file, e);
    RememberKeepsValid(h, file, c);
    WriteNow(h, file, c);
    StoredNames(h, s, c);
    RewriteIsRead(h, file, c, t);
    AllOthersKept(h, file, c, r);
    assert ([Written(Merged(h, s, c))] + Kept(h, s, c))[1..] == Kept(h, s, c);
  }

  lemma ClearedNames(h: Host, e: Record)
    ensures SameNames(ClearedRecord(h, e), e) && ClearedRecord(h, e).ts == h.now
  {
  }

  /** Rewriting a stored record makes room for it, so every other record is kept. */
  lemma AllOthersKept(h: Host, file: File, e: Record, r: Record)
    requires Valid(Entries(file)) && Addressed(Normalize(h, e))
    requires r in Entries(file) && KeyText(r) == Key(h, Normalize(h, e))
    ensures Kept(h, Entries(file), e) == Others(h, Entries(file), e)
    ensures forall y :: y in Others(h, Entries(file), e) <==> y in Entries(file) && y != r
  {
    var s := Entries(file);
    var wanted := Key(h, Normalize(h, e));
    OthersAre(h, file, e);
    SettledNormal(h, r);
    hide Normalize, Key, Settled;
    assert !OtherKey(h, wanted)(r) by {
      SettledKey(h, r);
    }
    FilterAll(s, Every());
    FilterDropsSome(s, Every(), OtherKey(h, wanted), r);
    hide Filter;
    forall y | y in s && KeyText(y) == wanted ensures y == r {
      var i :| 0 <= i < |s| && s[i] == y;
      var j :| 0 <= j < |s| && s[j] == r;
    }
  }

  lemma SettledKey(h: Host, r: Record)
    requires Settled(r)
    ensures Key(h, r) == KeyText(r)
  {
    SettledNormal(h, r);
  }

  /** A complete dispatch whose target is not held passes. */
  lemma FreeDispatchPasses(file: File, m: Moment, t: Target)
    requires Valid(Entries(file)) && DispatchOf(m, t) && !Held(Entries(file), t)
    ensures Apply(file, m).1 == Passed
  {
    hide Apply, Held;
    DispatchStalls(file, m);
  }

  /** A successful acknowledgement of the record that the target reads lets the target go: the next complete
      dispatch passes. */
  lemma SuccessLetsThrough(file: File, ack: Moment, t: Target, next: Moment)
    requires Valid(Entries(file)) && NoNewerThan(Entries(file), ack.h.now) && ack.h.now != 0
    requires ack.ev.AckEnd? && ack.ev.ok && ack.ev.pending.Some?
    requires Pick(Entries(file), t).Some? && SameNames(ack.ev.pending.value, Pick(Entries(file), t).value)
    requires DispatchOf(next, t)
    ensures var after := Apply(file, ack).0;
            && Valid(Entries(after)) && !Held(Entries(after), t)
            && Apply(after, next).1 == Passed
  {
    hide RememberFile, ClearedRecord, Valid, Pick, Failing, NoNewerThan, DispatchOf, SameNames;
    var pending := ack.ev.pending.value;
    ClearedFile(ack.h, file, pending, t, Pick(Entries(file), t).value);
    assert Apply(file, ack).0 == RememberFile(ack.h, file, ClearedRecord(ack.h, pending));
    hide Apply;
    FreeDispatchPasses(Apply(file, ack).0, next, t);
  }

  /** A host step that is not a dispatch lets everything go that is guarded for its session and project. */
  lemma HostStepLetsThrough(file: File, m: Moment, t: Target, next: Moment)
    requires Valid(Entries(file)) && NoNewerThan(Entries(file), m.h.now) && m.h.now != 0
    requires m.ev.Pilot? && m.ev.p.kind != "" && m.ev.p.kind != "dispatch_subagent"
    requires t.sessionId == DispatchTarget(m).sessionId && t.project == DispatchTarget(m).project
    requires DispatchOf(next, t)
    ensures var after := Apply(file, m).0;
            && Valid(Entries(after)) && !Held(Entries(after), t)
            && Apply(after, next).1 == Passed
  {
    hide RememberFile, Valid, Pick, NoNewerThan, DispatchOf, ReadFor, ResultProject, NormalizeProject, Trim, ClearedRecord,
         MirrorFile;
    var s := Entries(file);
    HeldIsRead(m.h, file, ResultProject(m.ev.p), m.ev.session, t.ticket);
    if Pick(s, t).Some? && Failing(Pick(s, t).value) {
      ClearedFile(m.h, file, Pick(s, t).value, t, Pick(s, t).value);
    }
    hide Failing;
    HostStepFile(file, m, t);
    hide Apply;
    FreeDispatchPasses(Apply(file, m).0, next, t);
  }

  lemma HostStepFile(file: File, m: Moment, t: Target)
    requires Valid(Entries(file))
    requires m.ev.Pilot? && m.ev.p.kind != "" && m.ev.p.kind != "dispatch_subagent"
    requires t.sessionId == DispatchTarget(m).sessionId && t.project == DispatchTarget(m).project
    ensures var r := Pick(Entries(file), t);
            Apply(file, m).0 == if r.Some? && Failing(r.value) then RememberFile(m.h, file, ClearedRecord(m.h, r.value)) else file
  {
    hide RememberFile, Valid, Pick, ReadFor, ResultProject, NormalizeProject, Trim, ClearedRecord, MirrorFile, Failing;
    HeldIsRead(m.h, file, ResultProject(m.ev.p), m.ev.session, t.ticket);
  }

  /** A dispatch with slices still to send. */
  predicate PartialDispatch(m: Moment) {
    m.ev.Pilot? && IsDispatch(m.ev.p) && NonBlank(JavaScript, m.ev.p.remaining) != []
  }

  /** The names a mirrored dispatch is stored under. */
  function MirrorNames(m: Moment): Record
    requires m.ev.Pilot?
  {
    Normalize(m.h, Normalize(m.h, MirrorRecord(m.h, m.ev.p, m.ev.session, m.ev.legacy)))
  }

  /** Another failing record has the key text of the mirrored dispatch. */
  predicate Inherits(s: seq<Record>, r: Record, n: Record) {
    exists y :: y in s && y != r && Failing(y) && KeyText(y) == KeyText(n)
  }

  /** What a partial dispatch of a held target does to the registry. */
  lemma PartialFile(file: File, m: Moment, t: Target, r: Record)
    requires Valid(Entries(file)) && PartialDispatch(m) && DispatchTarget(m) == t
    requires Held(Entries(file), t) && Pick(Entries(file), t) == Some(r)
    ensures var cleared := RememberFile(m.h, file, ClearedRecord(m.h, r));
            && Trim(JavaScript, m.ev.p.ticket) != ""
            && Apply(file, m) == (MirrorFile(m.h, cleared, m.ev.p, m.ev.session, m.ev.legacy), Passed)
  {
    hide RememberFile, MirrorFile, ClearedRecord, ReadFor, NormalizeProject, ResultProject, NonBlank, Trim, Pick;
    HeldIsRead(m.h, file, ResultProject(m.ev.p), m.ev.session, t.ticket);
    PickIsStored(Entries(file), t);
    assert r.ticket != "";
  }

  /** What the mirrored dispatch is stored with: the target's ticket and, for a named target, its session; it says
      nothing about failures. */
  lemma MirrorFacts(m: Moment, t: Target, r: Record)
    requires m.ev.Pilot? && DispatchTarget(m) == t && Settled(r) && r.ticket == t.ticket
    ensures var e := MirrorRecord(m.h, m.ev.p, m.ev.session, m.ev.legacy);
            && e.lastAckError.Absent? && e.errorReportedAt.Absent? && e.ts == m.h.now
            && MirrorNames(m).ticket == t.ticket
            && (t.sessionId != "" ==> MirrorNames(m).sessionId == t.sessionId)
            && (r.project == t.project ==> MirrorNames(m).project == t.project)
            && (ResultProject(m.ev.p) != "" ==> t.project != "" && Addressed(Normalize(m.h, e)))
            && (ResultProject(m.ev.p) == "" ==> t.project == "")
  {
    var e := MirrorRecord(m.h, m.ev.p, m.ev.session, m.ev.legacy);
    StoredUnder(m.h, e);
    TrimProperties(JavaScript, m.ev.p.ticket);
    TrimProperties(JavaScript, Trim(JavaScript, m.ev.p.ticket));
    ResultProjectIsTrimmed(m.ev.p);
    NormalShape(m.h.cwd, ResultProject(m.ev.p));
    CanonicalIsFixedPoint(m.h.cwd, r.project);
    hide NormalizeProject, Normalize, ResultProject, Addressed;
  }

  lemma ResultProjectIsTrimmed(p: PilotResult)
    ensures Trim(JavaScript, ResultProject(p)) == ResultProject(p)
  {
    var text := OrElse(p.project, OrElse(p.cwd, p.toolProject));
    TrimProperties(JavaScript, text);
    TrimProperties(JavaScript, Trim(JavaScript, text));
  }

  /** The failure of what a silent write stores is that of the record with its key text. */
  lemma InheritedFailure(h: Host, file: File, e: Record)
    requires Valid(Entries(file)) && h.now != 0 && Addressed(Normalize(h, e)) && e.lastAckError.Absent?
    ensures Failing(Written(Merged(h, Entries(file), e)))
       <==> exists y :: y in Entries(file) && Failing(y) && KeyText(y) == Key(h, Normalize(h, e))
  {
    var s, wanted := Entries(file), Key(h, Normalize(h, e));
    RememberedFields(h, file, e);
    FindKeyProperties(h, s, wanted);
    var f := FindKey(h, s, wanted);
    if f.Some? {
      SettledKey(h, f.value);
      var i :| 0 <= i < |s| && s[i] == f.value;
      forall y | y in s && KeyText(y) == wanted ensures y == f.value {
        var j :| 0 <= j < |s| && s[j] == y;
      }
    } else {
      forall y | y in s ensures KeyText(y) != wanted {
        SettledKey(h, y);
      }
    }
  }

  /** After the failure of the record read was cleared, a silent write with the target's ticket: the target is held
      again exactly when the record read was another project's, the written one is exactly the target's, and it
      inherits a failure through its key text. */
  lemma MirrorHoldsIff(h: Host, file1: File, e: Record, t: Target)
    requires Valid(Entries(file1)) && h.now != 0 && e.ts == h.now && NoNewerThan(Entries(file1), h.now)
    requires Entries(file1) != [] && Pick(Entries(file1), t) == Some(Entries(file1)[0]) && !Failing(Entries(file1)[0])
    requires Addressed(Normalize(h, e)) && e.lastAckError.Absent? && t.project != ""
    requires var n, m1 := Normalize(h, Normalize(h, e)), Entries(file1)[0];
             && n.ticket == t.ticket == m1.ticket
             && (t.sessionId != "" ==> n.sessionId == t.sessionId)
             && (m1.project == t.project ==> n.project == t.project)
    ensures var n, m1 := Normalize(h, Normalize(h, e)), Entries(file1)[0];
            Held(Entries(RememberFile(h, file1, e)), t)
            <==> && t.sessionId != "" && m1.project != t.project && n.project == t.project
                 && exists y :: y in Entries(file1)[1..] && Failing(y) && KeyText(y) == KeyText(n)
  {
    hide RememberFile, Merged, Normalize, KeyText, Key, Others, Kept, Written, Addressed, NoNewerThan, Pick, Failing, Settled, Valid;
    var s1 := Entries(file1);
    var n, m1, m2 := Normalize(h, Normalize(h, e)), s1[0], Written(Merged(h, s1, e));
    assert s1 == [m1] + s1[1..];
    StoredNames(h, s1, e);
    InheritedFailure(h, file1, e);
    WriteNow(h, file1, e);
    if SameNames(n, m1) {
      SameNamesSameKey(n, m1);
      RewriteIsRead(h, file1, e, t);
      OnlyOfKey(s1, m1);
    } else {
      FrontSurvives(h, file1, e);
      OnlyOfKey(s1, m1);
      MirrorPick(s1, Kept(h, s1, e), m1, m2, t);
    }
  }

  lemma OnlyOfKey(s: seq<Record>, m: Record)
    requires Valid(s) && s != [] && s[0] == m
    ensures forall y :: y in s && KeyText(y) == KeyText(m) ==> y == m
    ensures forall y :: y in s[1..] ==> y in s && y != m
  {
    hide KeyText, Settled, Descending;
    forall y | y in s && KeyText(y) == KeyText(m) ensures y == m {
      var j :| 0 <= j < |s| && s[j] == y;
    }
    forall y | y in s[1..] ensures y in s && y != m {
      var j :| 0 <= j < |s[1..]| && s[1..][j] == y;
      assert s[j + 1] == y && KeyText(s[0]) != KeyText(s[j + 1]);
    }
  }

  /** The newest record survives every write under another key. */
  lemma FrontSurvives(h: Host, file: File, e: Record)
    requires Valid(Entries(file)) && Entries(file) != [] && Addressed(Normalize(h, e))
    ensures var s := Entries(file);
            && (forall r :: r in Kept(h, s, e) ==> r in s && KeyText(r) != Key(h, Normalize(h, e)))
            && (KeyText(s[0]) != Key(h, Normalize(h, e)) ==> s[0] in Kept(h, s, e))
            && DistinctKeys(Kept(h, s, e))
  {
    var s, wanted := Entries(file), Key(h, Normalize(h, e));
    OthersAre(h, file, e);
    OthersAreStored(h, s, e);
    SettledKey(h, s[0]);
    if KeyText(s[0]) != wanted {
      assert Others(h, s, e)[0] == s[0];
      assert Kept(h, s, e)[0] == s[0];
    }
  }

  /** What is read after the mirrored record went in front of a file whose clean first record was read. */
  lemma MirrorPick(s1: seq<Record>, kept: seq<Record>, m1: Record, m2: Record, t: Target)
    requires Valid(s1) && s1 != [] && s1[0] == m1 && Pick(s1, t) == Some(m1) && !Failing(m1)
    requires DistinctKeys(kept) && forall r :: r in kept ==> r in s1 && KeyText(r) != KeyText(m2)
    requires KeyText(m1) != KeyText(m2) ==> m1 in kept
    requires Failing(m2) ==> exists y :: y in s1 && Failing(y)
    requires KeyText(m1) == KeyText(m2) ==> !Failing(m2)
    requires m2.ticket == t.ticket == m1.ticket && t.project != "" && !SameNames(m2, m1)
    requires t.sessionId != "" ==> m2.sessionId == t.sessionId
    requires m1.project == t.project ==> m2.project == t.project
    ensures Held([m2] + kept, t)
       <==> t.sessionId != "" && m1.project != t.project && m2.project == t.project && Failing(m2)
  {
    PickIsStored(s1, t);
    if t.sessionId != "" {
      MirrorPickNamed(s1, kept, m1, m2, t);
    } else {
      MirrorPickUnnamed(s1, kept, m1, m2, t);
    }
  }

  lemma MirrorPickNamed(s1: seq<Record>, kept: seq<Record>, m1: Record, m2: Record, t: Target)
    requires Valid(s1) && s1 != [] && s1[0] == m1 && Pick(s1, t) == Some(m1) && !Failing(m1)
    requires forall r :: r in kept ==> r in s1 && KeyText(r) != KeyText(m2)
    requires KeyText(m1) != KeyText(m2) ==> m1 in kept
    requires KeyText(m1) == KeyText(m2) ==> !Failing(m2)
    requires m2.ticket == t.ticket == m1.ticket && t.project != "" && !SameNames(m2, m1)
    requires t.sessionId != "" && m2.sessionId == t.sessionId
    requires m1.project == t.project ==> m2.project == t.project
    ensures Held([m2] + kept, t) <==> m1.project != t.project && m2.project == t.project && Failing(m2)
  {
    hide Failing, Valid, KeyText;
    PickIsStored(s1, t);
    PickNamed(s1, t);
    PickNamed([m2] + kept, t);
    FilterFirst(m2, kept, Exact(t));
    FilterFirst(m2, kept, OfSession(t.sessionId));
    FilterMember(kept, OfSession(t.sessionId), m1);
    hide Filter, Pick;
    if m2.project != t.project {
      NoneInPart(s1, kept, Exact(t));
      if m1 !in kept {
        assert KeyText(m1) == KeyText(m2);
      }
    }
  }

  lemma MirrorPickUnnamed(s1: seq<Record>, kept: seq<Record>, m1: Record, m2: Record, t: Target)
    requires Valid(s1) && s1 != [] && s1[0] == m1 && Pick(s1, t) == Some(m1) && !Failing(m1)
    requires DistinctKeys(kept) && forall r :: r in kept ==> r in s1 && KeyText(r) != KeyText(m2)
    requires KeyText(m1) != KeyText(m2) ==> m1 in kept
    requires Failing(m2) ==> exists y :: y in s1 && Failing(y)
    requires KeyText(m1) == KeyText(m2) ==> !Failing(m2)
    requires t.project != "" && t.sessionId == ""
    requires m1.project == t.project ==> m2.project == t.project
    ensures !Held([m2] + kept, t)
  {
    hide Failing, KeyText, Settled, Descending;
    UnnamedPickIff(s1, t, m1);
    var u := [m2] + kept;
    assert m2 in u && (m1 in kept ==> m1 in u);
    hide DistinctKeys;
    if Pick(u, t).Some? {
      PickIsStored(u, t);
      var x := Pick(u, t).value;
      FrontDistinct(m2, kept);
      UnnamedPickIff(u, t, x);
    }
    hide Pick;
  }

  lemma FrontDistinct(m: Record, kept: seq<Record>)
    requires DistinctKeys(kept) && forall r :: r in kept ==> KeyText(r) != KeyText(m)
    ensures DistinctKeys([m] + kept)
  {
  }

  /** The one case in which a partial dispatch leaves its target held: the session's only record was another
      project's, and a failing record shares the key text, not the names, of the one it stores. */
  predicate StaysHeld(s: seq<Record>, m: Moment, t: Target, r: Record)
    requires m.ev.Pilot?
  {
    && t.sessionId != "" && t.project != "" && r.project != t.project
    && MirrorNames(m).project == t.project && Inherits(s, r, MirrorNames(m))
  }

  /** A dispatch with slices still to send lets its target go, except in that one case. */
  lemma PartialHoldsIff(file: File, m: Moment, t: Target, r: Record)
    requires Valid(Entries(file)) && NoNewerThan(Entries(file), m.h.now) && Regular(m)
    requires PartialDispatch(m) && DispatchTarget(m) == t
    requires Held(Entries(file), t) && Pick(Entries(file), t) == Some(r)
    ensures var after := Entries(Apply(file, m).0);
            Valid(after) && (Held(after, t) <==> StaysHeld(Entries(file), m, t, r))
  {
    hide RememberFile, Valid, Pick, NoNewerThan, ReadFor, ResultProject, NormalizeProject, Trim, ClearedRecord, Failing,
         Normalize, Addressed, Settles, KeyText, NonBlank;
    var s := Entries(file);
    PickIsStored(s, t);
    StoredIsSettled(s, r);
    var cleared := RememberFile(m.h, file, ClearedRecord(m.h, r));
    ClearedFile(m.h, file, r, t, r);
    PartialFile(file, m, t, r);
    MirrorFacts(m, t, r);
    hide Apply;
    if ResultProject(m.ev.p) != "" {
      var e := MirrorRecord(m.h, m.ev.p, m.ev.session, m.ev.legacy);
      RememberKeepsValid(m.h, cleared, e);
      MirrorHoldsIff(m.h, cleared, e, t);
    }
  }

  lemma StoredIsSettled(s: seq<Record>, r: Record)
    requires Valid(s) && r in s
    ensures Settled(r)
  {
  }

  /** The next complete dispatch after a partial one passes, except in that one case. */
  lemma PartialLetsThroughIff(file: File, m: Moment, t: Target, next: Moment)
    requires Valid(Entries(file)) && NoNewerThan(Entries(file), m.h.now) && Regular(m)
    requires PartialDispatch(m) && DispatchTarget(m) == t && Held(Entries(file), t)
    requires DispatchOf(next, t)
    ensures Apply(Apply(file, m).0, next).1 == Passed
            <==> !StaysHeld(Entries(file), m, t, Pick(Entries(file), t).value)
  {
    PartialHoldsIff(file, m, t, Pick(Entries(file), t).value);
    hide Apply, Pick, Failing, StaysHeld, Valid, PartialDispatch, Regular, NoNewerThan;
    DispatchStalls(Apply(file, m).0, next);
    if !Held(Entries(Apply(file, m).0), t) {
      FreeDispatchPasses(Apply(file, m).0, next, t);
    }
  }

  /** With plain names there is no such case. */
  lemma PlainNamesDoNotStay(s: seq<Record>, m: Moment, t: Target, r: Record)
    requires Valid(s) && m.ev.Pilot? && Pick(s, t) == Some(r)
    requires PlainNames(MirrorNames(m)) && forall y :: y in s ==> PlainNames(y)
    requires t.sessionId != "" ==> MirrorNames(m).sessionId == t.sessionId
    ensures !StaysHeld(s, m, t, r)
  {
    hide Failing, KeyText, MirrorNames, PlainNames, Valid;
    PickIsStored(s, t);
    if StaysHeld(s, m, t, r) {
      var y :| y in s && y != r && Failing(y) && KeyText(y) == KeyText(MirrorNames(m));
      FilterEmptyIff(s, Exact(t));
      SessionHasOnly(s, t, r);
      KeyTextInjective(y, MirrorNames(m));
    }
  }

  /** When the record read for a session is another project's, it is the session's only one. */
  lemma SessionHasOnly(s: seq<Record>, t: Target, r: Record)
    requires Valid(s) && t.sessionId != "" && t.project != "" && Pick(s, t) == Some(r) && r.project != t.project
    ensures forall y :: y in s && y.sessionId == t.sessionId ==> y == r
  {
    PickIsStored(s, t);
    PickNamed(s, t);
    SoleIs(s, OfSession(t.sessionId), r);
  }

  // ----- what the facade stores besides

  /** A mirrored dispatch leaves what is known about the failure of its ticket: a record stored under its key
      keeps error and report, and a new one has none. */
  lemma MirrorKeepsFailure(h: Host, file: File, p: PilotResult, session: string, legacy: Option<Record>)
    requires Valid(Entries(file)) && h.now != 0
    requires Trim(JavaScript, p.ticket) != "" && ResultProject(p) != ""
    ensures var e := MirrorRecord(h, p, session, legacy);
            var m := Written(Merged(h, Entries(file), e));
            && (Failing(m) <==> exists y :: y in Entries(file) && Failing(y) && KeyText(y) == Key(h, Normalize(h, e)))
            && (forall y :: y in Entries(file) && KeyText(y) == Key(h, Normalize(h, e)) ==>
                  && m.lastAckError == y.lastAckError && m.lastAckFailedAt == y.lastAckFailedAt
                  && m.errorReportedAt == y.errorReportedAt)
            && m.ackAttempts == Value(if legacy.Some? && legacy.value.ackAttempts.Value? then legacy.value.ackAttempts.value
                                      else 0)
            && m.ts == h.now && m.ticket == Trim(JavaScript, p.ticket)
            && m.project == NormalizeProject(h.cwd, NormalizeProject(h.cwd, ResultProject(p)))
            && m.sessionId == Trim(JavaScript, if session != "" then session
                                               else if legacy.Some? then legacy.value.sessionId else "")
            && m.actor == Trim(JavaScript, if p.actor != "" then p.actor
                                           else if legacy.Some? then legacy.value.actor else "")
            && m.action == Trim(JavaScript, if p.action != "" then p.action
                                            else if legacy.Some? then legacy.value.action else "")
            && m.workflow == Trim(JavaScript, if legacy.Some? && legacy.value.workflow != "" then legacy.value.workflow
                                              else p.toolWorkflow)
  {
    hide Trim, NormalizeProject, Merged, Valid, Failing, KeyText, ResultProject;
    var e := MirrorRecord(h, p, session, legacy);
    var s := Entries(file);
    ResultProjectIsTrimmed(p);
    TrimProperties(JavaScript, p.ticket);
    TrimProperties(JavaScript, Trim(JavaScript, p.ticket));
    StoredUnder(h, e);
    InheritedFailure(h, file, e);
    MergedShape(h, s, e);
    PriorIs(h, file, e);
    RememberedFields(h, file, e);
  }

  /** The record a write merges with is the one of its key. */
  lemma PriorIs(h: Host, file: File, e: Record)
    requires Valid(Entries(file))
    ensures var wanted := Key(h, Normalize(h, e));
            forall y :: y in Entries(file) && KeyText(y) == wanted ==> FindKey(h, Entries(file), wanted) == Some(y)
  {
    var s, wanted := Entries(file), Key(h, Normalize(h, e));
    FindKeyProperties(h, s, wanted);
    forall y | y in s && KeyText(y) == wanted ensures FindKey(h, s, wanted) == Some(y) {
      SettledKey(h, y);
      var f := FindKey(h, s, wanted).value;
      SettledKey(h, f);
      var i :| 0 <= i < |s| && s[i] == f;
      var j :| 0 <= j < |s| && s[j] == y;
    }
  }

  /** The context an acknowledgement leaves is found again for 30 seconds, under its project as it was given when
      that has no white space around it, and never otherwise. */
  lemma ContextIsFoundIff(acks: map<string, Ack>, project: string, ack: Ack, later: int, asked: string)
    requires Trim(JavaScript, asked) == Trim(JavaScript, project)
    requires Trim(JavaScript, project) !in acks
    ensures RecentAck(acks[project := ack], later, asked) == Some(ack)
            <==> Trimmed(JavaScript, project) && later <= ack.ts + 30_000
    ensures RecentAck(acks[project := ack], later, asked) in {None, Some(ack)}
  {
    TrimProperties(JavaScript, project);
  }

  /** While the context of an acknowledgement is fresh, a dispatch of its project is remembered for its session, and
      with its workflow if the dispatch names none. */
  lemma PendingTakesContext(h: Host, s: seq<Record>, e: Record, ack: Ack)
    requires h.now != 0 && Trim(JavaScript, e.project) != "" && Trim(JavaScript, e.ticket) != ""
    ensures var m := Written(Merged(h, s, PendingEntry(e, Some(ack))));
            && m.sessionId == Trim(JavaScript, if ack.sessionId != "" then ack.sessionId else e.sessionId)
            && m.workflow == Trim(JavaScript, if e.workflow != "" then e.workflow else ack.workflow)
            && m.ticket == Trim(JavaScript, e.ticket)
            && m.project == NormalizeProject(h.cwd, NormalizeProject(h.cwd, e.project))
            && m.actor == Trim(JavaScript, e.actor) && m.action == Trim(JavaScript, e.action)
    ensures PendingEntry(e, None) == e
  {
    hide Trim, NormalizeProject, Merged;
    AddressedIff(h, PendingEntry(e, Some(ack)));
    MergedShape(h, s, PendingEntry(e, Some(ack)));
  }

  /** Clearing a pending dispatch right after the acknowledgement of its ticket takes away exactly the records of the
      acknowledged session and ticket in the project of the record the session reads. */
  lemma ClearTakesAcknowledged(h: Host, file: File, project: string, hint: string, ack: Ack)
    requires Valid(Entries(file)) && ack.sessionId != "" && ack.ticket != ""
    requires Trim(JavaScript, ack.sessionId) != "" && Trim(JavaScript, ack.ticket) != ""
    ensures var current := ReadFor(h, file, project, ack.sessionId);
            var after := Entries(ClearFile(h, file, project, hint, Some(ack)));
            && Valid(after)
            && (current.None? ==> after == Entries(file))
            && (current.Some? ==> forall r :: r in after <==>
                  r in Entries(file) && !(r.project == current.value.project
                                          && r.sessionId == Trim(JavaScript, ack.sessionId)
                                          && r.ticket == Trim(JavaScript, ack.ticket)))
  {
    var current := ReadFor(h, file, project, ack.sessionId);
    ReadIsStored(h, file, project, ack.sessionId);
    if current.Some? {
      SettledNormal(h, current.value);
      RemoveExact(h, file, current.value.project, ack.sessionId, ack.ticket);
      StoredIsSettled(Entries(file), current.value);
    }
    hide Valid, ReadFor, RemoveFile, Trim, Settled, NormalizeProject;
  }

  /** Which record an acknowledgement concerns: the one its live session reads for the project, else the latest of that
      session, else what the hinted session reads for the project. */
  lemma PendingIs(h: Host, file: File, project: string, live: string, hint: string)
    requires Valid(Entries(file))
    ensures var got := PendingOf(h, file, project, live, hint);
            var s, sid := Entries(file), Trim(JavaScript, live);
            && (sid != "" && (exists r :: r in s && r.sessionId == sid) ==>
                  got.Some? && got.value in s && got.value.sessionId == sid)
            && (sid != "" && (forall r :: r in s ==> r.sessionId != sid) ==> got == ReadFor(h, file, project, hint))
            && (ReadFor(h, file, project, live).Some? ==> got == ReadFor(h, file, project, live))
  {
    LatestIff(h, file, live);
    LoadValid(h, file);
    if Trim(JavaScript, live) != "" {
      ReadForOwnSession(h, file, project, live);
    }
    hide ReadFor, ReadLatest, Trim, Load, Valid;
  }
}
