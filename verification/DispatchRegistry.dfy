/** The durable registry of native-Task dispatches (opencode-plugin/dispatch-registry.ts):
    one file of records keyed by Host session, project and ticket. */
module DispatchRegistry {
  import opened Text
  import opened Lists
  import opened HostPath

  const MAX_ENTRIES := 128
  const ERROR_CAP := 800

  /** What a call sees of its process: the working directory and the clock. */
  datatype Host = Host(cwd: string, now: int)

  /** A property of a JavaScript object: missing, present with the value undefined, or set.
      A spread keeps the older value only when the property is missing. */
  datatype Field<+T> = Absent | Undefined | Value(value: T)

  /** The empty text stands for a missing session or workflow: every reader treats the two alike. */
  datatype Record = Record(
    project: string, ticket: string, actor: string, action: string,
    sessionId: string, workflow: string, ts: int,
    ackAttempts: Field<int>, lastAckError: Field<string>,
    lastAckFailedAt: Field<int>, errorReportedAt: Field<int>)

  /** The registry file: missing, or the records it holds. */
  type File = Option<seq<Record>>

  datatype Notice = Notice(ticket: string, project: string, sessionId: string, error: string)

  datatype Failure = Failure(
    project: string, ticket: string, sessionId: string, workflow: string,
    actor: string, action: string, error: string)

  function Entries(file: File): seq<Record> {
    if file.Some? then file.value else []
  }

  function Normalize(h: Host, r: Record): Record {
    r.(project := NormalizeProject(h.cwd, r.project),
       ticket := Trim(JavaScript, r.ticket),
       actor := Trim(JavaScript, r.actor),
       action := Trim(JavaScript, r.action),
       sessionId := Trim(JavaScript, r.sessionId),
       workflow := Trim(JavaScript, r.workflow),
       ts := if r.ts == 0 then h.now else r.ts)
  }

  function KeyText(r: Record): string {
    (if r.sessionId == "" then "-" else r.sessionId) + "\n" + r.project + "\n" + r.ticket
  }

  function Key(h: Host, r: Record): string {
    KeyText(Normalize(h, r))
  }

  predicate Addressed(r: Record) {
    r.project != "" && r.ticket != ""
  }

  function NormalizeAll(h: Host, s: seq<Record>): seq<Record> {
    if s == [] then [] else [Normalize(h, s[0])] + NormalizeAll(h, s[1..])
  }

  function Load(h: Host, file: File): seq<Record> {
    Filter(NormalizeAll(h, Entries(file)), Addressed)
  }

  function Ts(r: Record): int { r.ts }

  function DropUndefined<T>(f: Field<T>): Field<T> {
    if f.Undefined? then Absent else f
  }

  /** A record as JSON text keeps it: properties that are undefined are not written. */
  function Written(r: Record): Record {
    r.(ackAttempts := DropUndefined(r.ackAttempts), lastAckError := DropUndefined(r.lastAckError),
       lastAckFailedAt := DropUndefined(r.lastAckFailedAt), errorReportedAt := DropUndefined(r.errorReportedAt))
  }

  function WriteAll(s: seq<Record>): seq<Record> {
    if s == [] then [] else [Written(s[0])] + WriteAll(s[1..])
  }

  function Newest(s: seq<Record>): seq<Record> {
    if |s| <= MAX_ENTRIES then s else s[..MAX_ENTRIES]
  }

  /** What saving a list of records leaves in the file. */
  function Saved(entries: seq<Record>): seq<Record> {
    WriteAll(Newest(SortDescending(entries, Ts)))
  }

  function OtherKey(h: Host, wanted: string): Record -> bool {
    (r: Record) => Key(h, r) != wanted
  }

  function OfSession(sid: string): Record -> bool {
    (r: Record) => r.sessionId == sid
  }

  function OfProject(project: string): Record -> bool {
    (r: Record) => r.project == project
  }

  function FindKey(h: Host, s: seq<Record>, wanted: string): Option<Record> {
    if s == [] then None
    else if Key(h, s[0]) == wanted then Some(s[0])
    else FindKey(h, s[1..], wanted)
  }

  function Over<T>(older: Field<T>, newer: Field<T>): Field<T> {
    if newer.Absent? then older else newer
  }

  function Merge(prior: Option<Record>, r: Record): Record {
    if prior.None? then r
    else r.(ackAttempts := Over(prior.value.ackAttempts, r.ackAttempts),
            lastAckError := Over(prior.value.lastAckError, r.lastAckError),
            lastAckFailedAt := Over(prior.value.lastAckFailedAt, r.lastAckFailedAt),
            errorReportedAt := Over(prior.value.errorReportedAt, r.errorReportedAt))
  }

  function Merged(h: Host, entries: seq<Record>, e: Record): Record {
    var normalized := Normalize(h, e);
    Normalize(h, Merge(FindKey(h, entries, Key(h, normalized)), normalized))
  }

  function RememberFile(h: Host, file: File, e: Record): File {
    var normalized := Normalize(h, e);
    if !Addressed(normalized) then file
    else
      var entries := Load(h, file);
      Some(Saved([Merged(h, entries, e)] + Filter(entries, OtherKey(h, Key(h, normalized)))))
  }

  function ReadFor(h: Host, file: File, project: string, sessionId: string): Option<Record> {
    var p := NormalizeProject(h.cwd, project);
    var sid := Trim(JavaScript, sessionId);
    var entries := Load(h, file);
    if sid != "" then
      var bySession := Filter(entries, OfSession(sid));
      var exact := if p != "" then Filter(bySession, OfProject(p)) else bySession;
      if exact != [] then
        SortProperties(exact, Ts);
        Some(SortDescending(exact, Ts)[0])
      else if |bySession| == 1 then Some(bySession[0])
      else None
    else
      var matches := Filter(entries, OfProject(p));
      if p != "" && |matches| == 1 then Some(matches[0])
      else if p != "" && |matches| > 1 then None
      else if |entries| == 1 then Some(entries[0])
      else None
  }

  function Sole(s: seq<Record>): Option<Record> {
    if |s| == 1 then Some(s[0]) else None
  }

  /** What a read gives on a file whose records are already normalised and newest first: for a named session
      its newest record of the project, or else its only record; without a session the only record of the
      project, or else the only record of the file. */
  function Chosen(s: seq<Record>, project: string, sid: string): Option<Record> {
    if sid != "" then
      var own := Filter(s, OfSession(sid));
      var exact := if project != "" then Filter(own, OfProject(project)) else own;
      if exact != [] then Some(exact[0]) else Sole(own)
    else
      var matches := if project != "" then Filter(s, OfProject(project)) else [];
      if matches != [] then Sole(matches) else Sole(s)
  }

  function ReadLatest(h: Host, file: File, sessionId: string): Option<Record> {
    var sid := Trim(JavaScript, sessionId);
    var entries := Load(h, file);
    if sid != "" then
      var matches := Filter(entries, OfSession(sid));
      if matches != [] then
        SortProperties(matches, Ts);
        Some(SortDescending(matches, Ts)[0])
      else None
    else if |entries| == 1 then Some(entries[0])
    else None
  }

  /** The records a removal keeps; an empty argument does not restrict it. */
  function Keeps(project: string, sid: string, ticket: string): Record -> bool {
    (r: Record) =>
      || (project != "" && r.project != project)
      || (sid != "" && r.sessionId != sid)
      || (ticket != "" && r.ticket != ticket)
  }

  function RemoveFile(h: Host, file: File, project: string, sessionId: string, ticket: string): File {
    var kept := Filter(Load(h, file),
                       Keeps(NormalizeProject(h.cwd, project), Trim(JavaScript, sessionId), Trim(JavaScript, ticket)));
    if kept != [] then Some(Saved(kept)) else None
  }

  function ErrorText(error: string): string {
    var text := OrElse(error, "HOST_DISPATCH_ACK_FAILED");
    if |text| <= ERROR_CAP then text else text[..ERROR_CAP]
  }

  function IntOf(f: Field<int>, default: int): int {
    if f.Value? && f.value != 0 then f.value else default
  }

  /** The record that a failed acknowledgement remembers. */
  function FailureRecord(h: Host, file: File, a: Failure): Record {
    var found := ReadFor(h, file, a.project, a.sessionId);
    var existing := if found.Some? then found.value
                    else Record(a.project, a.ticket, a.actor, a.action, a.sessionId, a.workflow, h.now,
                                Absent, Absent, Absent, Absent);
    Record(a.project, a.ticket, OrElse(a.actor, existing.actor), OrElse(a.action, existing.action),
           OrElse(a.sessionId, existing.sessionId), OrElse(a.workflow, existing.workflow), h.now,
           Value(IntOf(existing.ackAttempts, 0) + 1), Value(ErrorText(a.error)), Value(h.now), Undefined)
  }

  function ClearedRecord(h: Host, e: Record): Record {
    e.(lastAckError := Undefined, lastAckFailedAt := Undefined, errorReportedAt := Undefined, ts := h.now)
  }

  predicate Failing(r: Record) {
    r.lastAckError.Value? && r.lastAckError.value != ""
  }

  predicate NoticeDue(r: Record) {
    Failing(r) && !(r.errorReportedAt.Value? && r.errorReportedAt.value != 0)
  }

  function ForSession(sid: string): Record -> bool {
    (r: Record) => sid == "" || r.sessionId == sid
  }

  function FailedAt(r: Record): int {
    IntOf(r.lastAckFailedAt, r.ts)
  }

  /** The notices a session can still be given, newest failure first. */
  function Due(entries: seq<Record>, sid: string): seq<Record> {
    SortDescending(Filter(Filter(entries, NoticeDue), ForSession(sid)), FailedAt)
  }

  function Reported(r: Record, now: int): Record {
    r.(errorReportedAt := Value(now))
  }

  /** Marks the given record as reported. */
  function Mark(s: seq<Record>, r: Record, now: int): seq<Record> {
    if s == [] then []
    else if s[0] == r then [Reported(r, now)] + s[1..]
    else [s[0]] + Mark(s[1..], r, now)
  }

  function NoticeOf(r: Record, sid: string): Notice {
    Notice(r.ticket, r.project, OrElse(r.sessionId, sid),
           if r.lastAckError.Value? then OrElse(r.lastAckError.value, "HOST_DISPATCH_ACK_FAILED")
           else "HOST_DISPATCH_ACK_FAILED")
  }

  function ConsumeFile(h: Host, file: File, sessionId: string): (r: (File, Option<Notice>)) {
    var sid := Trim(JavaScript, sessionId);
    var entries := Load(h, file);
    var candidates := Due(entries, sid);
    if candidates == [] then (file, None)
    else (Some(Saved(Mark(entries, candidates[0], h.now))), Some(NoticeOf(candidates[0], sid)))
  }

  // ----- the registry as the plug-in keeps it

  class Registry {
    var file: File

    constructor ()
      ensures file == None && Consistent()
    {
      file := None;
    }

    /** The invariant of every reachable file. */
    ghost predicate Consistent()
      reads this
    {
      Valid(Entries(file))
    }

    /** Whatever the records: at most 128 are stored, newest first, and none that is lost is newer
        than one that is kept. */
    method Save(entries: seq<Record>)
      modifies this
      ensures file == Some(Saved(entries))
      ensures |Entries(file)| <= MAX_ENTRIES && Descending(Entries(file), Ts)
      ensures multiset(Entries(file)) <= multiset(WriteAll(entries))
      ensures |entries| <= MAX_ENTRIES ==> multiset(Entries(file)) == multiset(WriteAll(entries))
      ensures forall r :: r in entries ==>
                Written(r) in Entries(file)
                || (|Entries(file)| == MAX_ENTRIES && forall k :: k in Entries(file) ==> k.ts >= r.ts)
    {
      SavedKeepsNewest(entries);
      var sorted := SortDescending(entries, Ts);
      file := Some(WriteAll(Newest(sorted)));
    }

    method Remember(h: Host, e: Record) returns (merged: Record)
      modifies this
      ensures file == RememberFile(h, old(file), e)
      ensures merged == if Addressed(Normalize(h, e)) then Merged(h, Load(h, old(file)), e) else Normalize(h, e)
      ensures old(Consistent()) && h.now != 0 && Settles(h, e.project) ==> Consistent()
    {
      ghost var before := file;
      var normalized := Normalize(h, e);
      if !Addressed(normalized) {
        return normalized;
      }
      var entries := Load(h, file);
      var wanted := Key(h, normalized);
      var prior := FindKey(h, entries, wanted);
      merged := Normalize(h, Merge(prior, normalized));
      Save([merged] + Filter(entries, OtherKey(h, wanted)));
      if Valid(Entries(before)) && h.now != 0 && Settles(h, e.project) {
        RememberKeepsValid(h, before, e);
      }
    }

    method Remove(h: Host, project: string, sessionId: string, ticket: string)
      modifies this
      ensures file == RemoveFile(h, old(file), project, sessionId, ticket)
      ensures old(Consistent()) ==> Consistent()
    {
      ghost var before := file;
      var normalizedProject := NormalizeProject(h.cwd, project);
      var sid := Trim(JavaScript, sessionId);
      var tid := Trim(JavaScript, ticket);
      var kept := Filter(Load(h, file), Keeps(normalizedProject, sid, tid));
      if kept != [] {
        Save(kept);
      } else {
        file := None;
      }
      if Valid(Entries(before)) {
        RemoveExact(h, before, project, sessionId, ticket);
      }
    }

    method RecordFailure(h: Host, a: Failure) returns (merged: Record)
      modifies this
      ensures file == RememberFile(h, old(file), FailureRecord(h, old(file), a))
      ensures old(Consistent()) && h.now != 0 && Settles(h, a.project) ==> Consistent()
    {
      merged := Remember(h, FailureRecord(h, file, a));
    }

    method ClearFailure(h: Host, e: Record) returns (merged: Record)
      modifies this
      ensures file == RememberFile(h, old(file), ClearedRecord(h, e))
      ensures old(Consistent()) && h.now != 0 && Settles(h, e.project) ==> Consistent()
    {
      merged := Remember(h, ClearedRecord(h, e));
    }

    method ConsumeNotice(h: Host, sessionId: string) returns (notice: Option<Notice>)
      modifies this
      ensures (file, notice) == ConsumeFile(h, old(file), sessionId)
      ensures old(Consistent()) ==> Consistent()
    {
      ghost var before := file;
      var sid := Trim(JavaScript, sessionId);
      var entries := Load(h, file);
      var candidates := Due(entries, sid);
      if candidates == [] {
        return None;
      }
      Save(Mark(entries, candidates[0], h.now));
      notice := Some(NoticeOf(candidates[0], sid));
      if Valid(Entries(before)) {
        ConsumeTakesNewest(h, before, sessionId);
      }
    }
  }

  // ----- records that no operation changes by reading them

  /** A record as the registry leaves it on disk. */
  predicate Settled(r: Record) {
    && Canonical(r.project)
    && r.ticket != "" && Trimmed(JavaScript, r.ticket)
    && Trimmed(JavaScript, r.actor) && Trimmed(JavaScript, r.action)
    && Trimmed(JavaScript, r.sessionId) && Trimmed(JavaScript, r.workflow)
    && r.ts != 0
    && Written(r) == r
  }

  lemma SettledIsFixedPoint(h: Host, r: Record)
    requires h.now != 0
    ensures Settled(r) <==> Normalize(h, r) == r && Addressed(r) && Written(r) == r
  {
    CanonicalIsFixedPoint(h.cwd, r.project);
    TrimProperties(JavaScript, r.ticket);
    TrimProperties(JavaScript, r.actor);
    TrimProperties(JavaScript, r.action);
    TrimProperties(JavaScript, r.sessionId);
    TrimProperties(JavaScript, r.workflow);
  }

  lemma SettledNormal(h: Host, r: Record)
    requires Settled(r)
    ensures Normalize(h, r) == r && Addressed(r) && Key(h, r) == KeyText(r)
  {
    CanonicalIsFixedPoint(h.cwd, r.project);
    TrimProperties(JavaScript, r.ticket);
    TrimProperties(JavaScript, r.actor);
    TrimProperties(JavaScript, r.action);
    TrimProperties(JavaScript, r.sessionId);
    TrimProperties(JavaScript, r.workflow);
  }

  /** Normalising a record twice is normalising it once exactly when its resolved project
      does not end in white space. */
  lemma NormalizeRecordIdempotentIff(h: Host, r: Record)
    ensures var n := Normalize(h, r);
            Normalize(h, n) == n <==> Trimmed(JavaScript, n.project)
  {
    NormalizeIdempotentIff(h.cwd, r.project);
    TrimProperties(JavaScript, r.ticket);
    TrimProperties(JavaScript, r.actor);
    TrimProperties(JavaScript, r.action);
    TrimProperties(JavaScript, r.sessionId);
    TrimProperties(JavaScript, r.workflow);
    TrimProperties(JavaScript, Trim(JavaScript, r.ticket));
    TrimProperties(JavaScript, Trim(JavaScript, r.actor));
    TrimProperties(JavaScript, Trim(JavaScript, r.action));
    TrimProperties(JavaScript, Trim(JavaScript, r.sessionId));
    TrimProperties(JavaScript, Trim(JavaScript, r.workflow));
  }

  /** What `Remember` stores is normalised twice, so this is what makes a project safe to store. */
  predicate Settles(h: Host, project: string) {
    Trimmed(JavaScript, NormalizeProject(h.cwd, NormalizeProject(h.cwd, project)))
  }

  /** A project settles exactly when what is stored for it is a fixed point of normalisation. */
  lemma SettlesIff(h: Host, project: string)
    ensures var once := NormalizeProject(h.cwd, project);
            Settles(h, project) <==> once == "" || Canonical(NormalizeProject(h.cwd, once))
  {
    var once := NormalizeProject(h.cwd, project);
    NormalShape(h.cwd, project);
    NormalShape(h.cwd, once);
    if once != "" {
      TrimKeepsFirst(JavaScript, once);
    }
    assert Trimmed(JavaScript, "");
  }

  // ----- the invariant of the file

  ghost predicate DistinctKeys(s: seq<Record>) {
    forall i, j :: 0 <= i < j < |s| ==> KeyText(s[i]) != KeyText(s[j])
  }

  ghost predicate Valid(s: seq<Record>) {
    && |s| <= MAX_ENTRIES
    && Descending(s, Ts)
    && (forall r :: r in s ==> Settled(r))
    && DistinctKeys(s)
  }

  lemma {:induction false} LoadSettled(h: Host, s: seq<Record>)
    requires forall r :: r in s ==> Settled(r)
    ensures NormalizeAll(h, s) == s && Filter(s, Addressed) == s
  {
    if s == [] {
    } else {
      assert s[0] in s;
      SettledNormal(h, s[0]);
      LoadSettled(h, s[1..]);
    }
  }

  /** Reading a valid file gives exactly what it holds. */
  lemma LoadValid(h: Host, file: File)
    requires Valid(Entries(file))
    ensures Load(h, file) == Entries(file)
  {
    LoadSettled(h, Entries(file));
  }

  lemma ReadIsChosen(h: Host, file: File, project: string, sessionId: string)
    requires Valid(Entries(file))
    ensures ReadFor(h, file, project, sessionId)
         == Chosen(Entries(file), NormalizeProject(h.cwd, project), Trim(JavaScript, sessionId))
  {
    LoadValid(h, file);
    var s, sid, p := Entries(file), Trim(JavaScript, sessionId), NormalizeProject(h.cwd, project);
    var own := Filter(s, OfSession(sid));
    DescendingFilter(s, OfSession(sid), Ts);
    DescendingFilter(own, OfProject(p), Ts);
    hide Load, Trim, NormalizeProject, Filter;
    SortSorted(own, Ts);
    SortSorted(Filter(own, OfProject(p)), Ts);
  }

  lemma {:induction false} WriteSettled(s: seq<Record>)
    requires forall r :: r in s ==> Written(r) == r
    ensures WriteAll(s) == s
  {
    if s == [] {
    } else {
      assert s[0] in s;
      WriteSettled(s[1..]);
    }
  }

  lemma {:induction false} WriteInsert(r: Record, s: seq<Record>)
    requires forall x :: x in s ==> Written(x) == x
    ensures WriteAll(Insert(r, s, Ts)) == Insert(Written(r), s, Ts)
  {
    if s != [] && r.ts < s[0].ts {
      assert s[0] in s;
      WriteInsert(r, s[1..]);
    } else {
      WriteSettled(s);
    }
  }

  lemma {:induction false} WritePrefix(s: seq<Record>, n: nat)
    requires n <= |s|
    ensures |WriteAll(s)| == |s|
    ensures WriteAll(s[..n]) == WriteAll(s)[..n]
  {
    if s == [] {
    } else {
      if n == 0 {
        WritePrefix(s[1..], 0);
      } else {
        WritePrefix(s[1..], n - 1);
        assert s[..n][1..] == s[1..][..n - 1];
      }
    }
  }

  /** Saving a new record in front of settled ones: it goes where its time puts it, then the cap applies. */
  lemma SavedInsert(r: Record, rest: seq<Record>)
    requires Descending(rest, Ts)
    requires forall x :: x in rest ==> Written(x) == x
    ensures Saved([r] + rest) == Newest(Insert(Written(r), rest, Ts))
  {
    assert ([r] + rest)[1..] == rest;
    SortSorted(rest, Ts);
    var all := Insert(r, rest, Ts);
    WriteInsert(r, rest);
    if |all| > MAX_ENTRIES {
      WritePrefix(all, MAX_ENTRIES);
    } else {
      WritePrefix(all, 0);
    }
  }

  lemma {:induction false} WriteAllMember(s: seq<Record>, i: nat)
    requires i < |s|
    ensures |WriteAll(s)| == |s| && WriteAll(s)[i] == Written(s[i])
  {
    if i == 0 {
      WritePrefix(s, 0);
    } else {
      WriteAllMember(s[1..], i - 1);
    }
  }

  lemma {:induction false} WriteInsertAny(r: Record, s: seq<Record>)
    ensures WriteAll(Insert(r, s, Ts)) == Insert(Written(r), WriteAll(s), Ts)
  {
    if s != [] && r.ts < s[0].ts {
      WriteInsertAny(r, s[1..]);
    }
  }

  /** Writing and sorting commute: what is written does not touch the time. */
  lemma {:induction false} WriteSort(s: seq<Record>)
    ensures WriteAll(SortDescending(s, Ts)) == SortDescending(WriteAll(s), Ts)
  {
    if s == [] {
    } else {
      WriteSort(s[1..]);
      WriteInsertAny(s[0], SortDescending(s[1..], Ts));
    }
  }

  lemma SavedIsNewestWritten(entries: seq<Record>)
    ensures Saved(entries) == Newest(SortDescending(WriteAll(entries), Ts))
  {
    var sorted := SortDescending(entries, Ts);
    WriteSort(entries);
    WritePrefix(sorted, 0);
    if |sorted| > MAX_ENTRIES {
      WritePrefix(sorted, MAX_ENTRIES);
    }
  }

  lemma NewestOfSorted(all: seq<Record>, r: Record)
    requires Descending(all, Ts) && r in all
    ensures r in Newest(all)
            || (|Newest(all)| == MAX_ENTRIES && forall k :: k in Newest(all) ==> k.ts >= r.ts)
  {
    var i :| 0 <= i < |all| && all[i] == r;
    if |all| > MAX_ENTRIES && i >= MAX_ENTRIES {
      forall k | k in Newest(all) ensures k.ts >= r.ts {
        var j :| 0 <= j < MAX_ENTRIES && all[j] == k;
        assert Ts(all[j]) >= Ts(all[i]);
      }
    } else {
      assert Newest(all)[i] == r;
    }
  }

  lemma NewestIsPart(all: seq<Record>, whole: multiset<Record>)
    requires multiset(all) == whole && Descending(all, Ts)
    ensures |Newest(all)| <= MAX_ENTRIES && Descending(Newest(all), Ts)
    ensures multiset(Newest(all)) <= whole
    ensures |all| <= MAX_ENTRIES ==> multiset(Newest(all)) == whole
  {
    if |all| > MAX_ENTRIES {
      assert all == all[..MAX_ENTRIES] + all[MAX_ENTRIES..];
    }
  }

  /** What a save keeps, whatever it is given. */
  lemma SavedKeepsNewest(entries: seq<Record>)
    ensures |Saved(entries)| <= MAX_ENTRIES && Descending(Saved(entries), Ts)
    ensures multiset(Saved(entries)) <= multiset(WriteAll(entries))
    ensures |entries| <= MAX_ENTRIES ==> multiset(Saved(entries)) == multiset(WriteAll(entries))
    ensures forall r :: r in entries ==>
              Written(r) in Saved(entries)
              || (|Saved(entries)| == MAX_ENTRIES && forall k :: k in Saved(entries) ==> k.ts >= r.ts)
  {
    hide *;
    SavedIsNewestWritten(entries);
    WritePrefix(entries, 0);
    var written := WriteAll(entries);
    SortProperties(written, Ts);
    NewestIsPart(SortDescending(written, Ts), multiset(written));
    forall r | r in entries
      ensures Written(r) in Saved(entries)
              || (|Saved(entries)| == MAX_ENTRIES && forall k :: k in Saved(entries) ==> k.ts >= r.ts)
    {
      SavedLoses(entries, r);
    }
  }

  lemma WrittenTs(r: Record)
    ensures Written(r).ts == r.ts
  {
  }

  lemma SavedLoses(entries: seq<Record>, r: Record)
    requires r in entries
    ensures Written(r) in Saved(entries)
            || (|Saved(entries)| == MAX_ENTRIES && forall k :: k in Saved(entries) ==> k.ts >= r.ts)
  {
    hide *;
    var written := WriteAll(entries);
    SavedIsNewestWritten(entries);
    SortProperties(written, Ts);
    var i :| 0 <= i < |entries| && entries[i] == r;
    WriteAllMember(entries, i);
    SortMember(written, Ts, Written(r));
    NewestOfSorted(SortDescending(written, Ts), Written(r));
    WrittenTs(r);
  }

  lemma SavedSame(s: seq<Record>)
    requires |s| <= MAX_ENTRIES && Descending(s, Ts)
    requires forall x :: x in s ==> Written(x) == x
    ensures Saved(s) == s
  {
    SortSorted(s, Ts);
    WriteSettled(s);
  }

  lemma {:induction false} FilterKeepsDistinct(s: seq<Record>, keep: Record -> bool)
    requires DistinctKeys(s)
    ensures DistinctKeys(Filter(s, keep))
  {
    if s == [] {
    } else {
      FilterKeepsDistinct(s[1..], keep);
      var f := Filter(s[1..], keep);
      forall j | 0 <= j < |f| ensures KeyText(f[j]) != KeyText(s[0]) {
        FilterMember(s[1..], keep, f[j]);
        var k :| 0 <= k < |s[1..]| && s[1..][k] == f[j];
        assert s[1..][k] == s[k + 1];
      }
    }
  }

  lemma {:induction false} InsertKeepsDistinct(r: Record, s: seq<Record>)
    requires DistinctKeys(s)
    requires forall x :: x in s ==> KeyText(x) != KeyText(r)
    ensures DistinctKeys(Insert(r, s, Ts))
  {
    if s != [] && r.ts < s[0].ts {
      assert s[0] in s;
      InsertKeepsDistinct(r, s[1..]);
      var f := Insert(r, s[1..], Ts);
      forall j | 0 <= j < |f| ensures KeyText(f[j]) != KeyText(s[0]) {
        InsertMember(r, s[1..], Ts, f[j]);
        if f[j] != r {
          var k :| 0 <= k < |s[1..]| && s[1..][k] == f[j];
          assert s[1..][k] == s[k + 1];
        }
      }
    } else {
      forall k | 0 <= k < |s| ensures KeyText(s[k]) != KeyText(r) {
        assert s[k] in s;
      }
    }
  }

  lemma FilterValid(s: seq<Record>, keep: Record -> bool)
    requires Valid(s)
    ensures Valid(Filter(s, keep))
  {
    FilterLength(s, keep);
    DescendingFilter(s, keep, Ts);
    FilterKeepsDistinct(s, keep);
    forall r | r in Filter(s, keep) ensures Settled(r) {
      FilterMember(s, keep, r);
    }
  }

  /** The records another key leaves in place when `e` is remembered. */
  function Others(h: Host, s: seq<Record>, e: Record): seq<Record> {
    Filter(s, OtherKey(h, Key(h, Normalize(h, e))))
  }

  /** On a valid file, remembering is an insertion by time among the records of other keys. */
  lemma RememberIsInsert(h: Host, file: File, e: Record)
    requires Valid(Entries(file)) && Addressed(Normalize(h, e))
    ensures var s := Entries(file);
            && Valid(Others(h, s, e))
            && RememberFile(h, file, e)
            == Some(Newest(Insert(Written(Merged(h, s, e)), Others(h, s, e), Ts)))
  {
    var s := Entries(file);
    LoadValid(h, file);
    FilterValid(s, OtherKey(h, Key(h, Normalize(h, e))));
    SavedInsert(Merged(h, s, e), Others(h, s, e));
  }

  lemma {:induction false} FindKeyProperties(h: Host, s: seq<Record>, wanted: string)
    ensures var f := FindKey(h, s, wanted);
            && (f.Some? ==> f.value in s && Key(h, f.value) == wanted)
            && (f.None? ==> forall r :: r in s ==> Key(h, r) != wanted)
  {
    if s == [] {
    } else {
      FindKeyProperties(h, s[1..], wanted);
      if Key(h, s[0]) != wanted {
        forall r | r in s && FindKey(h, s, wanted).None? ensures Key(h, r) != wanted {
          assert r == s[0] || r in s[1..];
        }
      }
    }
  }

  lemma MergedShape(h: Host, s: seq<Record>, e: Record)
    requires Addressed(Normalize(h, e))
    ensures var m := Merged(h, s, e);
            && m.project == NormalizeProject(h.cwd, NormalizeProject(h.cwd, e.project))
            && m.ticket == Trim(JavaScript, e.ticket)
            && m.actor == Trim(JavaScript, e.actor) && m.action == Trim(JavaScript, e.action)
            && m.sessionId == Trim(JavaScript, e.sessionId) && m.workflow == Trim(JavaScript, e.workflow)
            && (h.now != 0 ==> m.ts == (if e.ts == 0 then h.now else e.ts) && m.ts != 0)
            && KeyText(m) == Key(h, Normalize(h, e))
  {
    TrimProperties(JavaScript, e.ticket);
    TrimProperties(JavaScript, e.actor);
    TrimProperties(JavaScript, e.action);
    TrimProperties(JavaScript, e.sessionId);
    TrimProperties(JavaScript, e.workflow);
    TrimProperties(JavaScript, Trim(JavaScript, e.ticket));
    TrimProperties(JavaScript, Trim(JavaScript, e.actor));
    TrimProperties(JavaScript, Trim(JavaScript, e.action));
    TrimProperties(JavaScript, Trim(JavaScript, e.sessionId));
    TrimProperties(JavaScript, Trim(JavaScript, e.workflow));
  }

  lemma MergedSettled(h: Host, s: seq<Record>, e: Record)
    requires Addressed(Normalize(h, e)) && h.now != 0
    ensures Settled(Written(Merged(h, s, e))) <==> Settles(h, e.project)
  {
    MergedShape(h, s, e);
    SettlesIff(h, e.project);
    TrimProperties(JavaScript, e.ticket);
    TrimProperties(JavaScript, e.actor);
    TrimProperties(JavaScript, e.action);
    TrimProperties(JavaScript, e.sessionId);
    TrimProperties(JavaScript, e.workflow);
    assert NormalizeProject(h.cwd, e.project) != "";
  }

  lemma NewestValid(s: seq<Record>)
    requires Descending(s, Ts) && DistinctKeys(s)
    requires forall r :: r in Newest(s) ==> Settled(r)
    ensures Valid(Newest(s))
  {
  }

  /** Remembering keeps the invariant, whatever the record, if its project settles. */
  lemma RememberKeepsValid(h: Host, file: File, e: Record)
    requires Valid(Entries(file)) && h.now != 0
    requires Settles(h, e.project)
    ensures Valid(Entries(RememberFile(h, file, e)))
  {
    if Addressed(Normalize(h, e)) {
      var s := Entries(file);
      RememberIsInsert(h, file, e);
      var m := Written(Merged(h, s, e));
      var rest := Others(h, s, e);
      MergedShape(h, s, e);
      MergedSettled(h, s, e);
      forall x | x in rest ensures KeyText(x) != KeyText(m) {
        FilterMember(s, OtherKey(h, Key(h, Normalize(h, e))), x);
        SettledNormal(h, x);
      }
      InsertKeepsDistinct(m, rest);
      InsertDescending(m, rest, Ts);
      forall r | r in Newest(Insert(m, rest, Ts)) ensures Settled(r) {
        InsertMember(m, rest, Ts, r);
      }
      NewestValid(Insert(m, rest, Ts));
    }
  }

  /** When the new record is kept, a project that does not settle breaks the invariant. */
  lemma RememberValidIff(h: Host, file: File, e: Record)
    requires Valid(Entries(file)) && h.now != 0 && Addressed(Normalize(h, e))
    requires Written(Merged(h, Entries(file), e)) in Entries(RememberFile(h, file, e))
    ensures Valid(Entries(RememberFile(h, file, e))) <==> Settles(h, e.project)
  {
    MergedSettled(h, Entries(file), e);
    if Settles(h, e.project) {
      RememberKeepsValid(h, file, e);
    }
  }

  /** Which failure fields survive: a missing property keeps the stored value, a property given
      as undefined erases it, a value replaces it. The other fields are the new record's. */
  lemma RememberedFields(h: Host, file: File, e: Record)
    requires Valid(Entries(file)) && h.now != 0 && Addressed(Normalize(h, e))
    ensures var s := Entries(file);
            var prior := FindKey(h, s, Key(h, Normalize(h, e)));
            var m := Written(Merged(h, s, e));
            && (prior.Some? && e.lastAckError.Absent? ==> m.lastAckError == prior.value.lastAckError)
            && (prior.Some? && e.errorReportedAt.Absent? ==> m.errorReportedAt == prior.value.errorReportedAt)
            && (prior.Some? && e.ackAttempts.Absent? ==> m.ackAttempts == prior.value.ackAttempts)
            && (prior.None? && e.lastAckError.Absent? ==> m.lastAckError.Absent?)
            && (prior.None? && e.errorReportedAt.Absent? ==> m.errorReportedAt.Absent?)
            && (e.lastAckError.Undefined? ==> m.lastAckError.Absent?)
            && (e.errorReportedAt.Undefined? ==> m.errorReportedAt.Absent?)
            && (e.lastAckError.Value? ==> m.lastAckError == e.lastAckError)
            && (e.errorReportedAt.Value? ==> m.errorReportedAt == e.errorReportedAt)
            && (e.ackAttempts.Value? ==> m.ackAttempts == e.ackAttempts)
            && (e.lastAckFailedAt.Value? ==> m.lastAckFailedAt == e.lastAckFailedAt)
            && (prior.Some? && e.lastAckFailedAt.Absent? ==> m.lastAckFailedAt == prior.value.lastAckFailedAt)
            && (e.lastAckFailedAt.Undefined? ==> m.lastAckFailedAt.Absent?)
  {
    var s := Entries(file);
    FindKeyProperties(h, s, Key(h, Normalize(h, e)));
    var prior := FindKey(h, s, Key(h, Normalize(h, e)));
    if prior.Some? {
      assert Settled(prior.value);
    }
  }

  /** What clearing stores: the record's own names and attempts, the time of the call, and no failure. */
  lemma ClearedIsClean(h: Host, file: File, e: Record)
    requires Valid(Entries(file)) && h.now != 0 && Addressed(Normalize(h, e))
    ensures var m := Written(Merged(h, Entries(file), ClearedRecord(h, e)));
            && m.lastAckError.Absent? && m.lastAckFailedAt.Absent? && m.errorReportedAt.Absent?
            && !Failing(m) && !NoticeDue(m)
            && m.ts == h.now
            && m.sessionId == Trim(JavaScript, e.sessionId) && m.ticket == Trim(JavaScript, e.ticket)
            && m.project == NormalizeProject(h.cwd, NormalizeProject(h.cwd, e.project))
            && (e.ackAttempts.Value? ==> m.ackAttempts == e.ackAttempts)
  {
    var c := ClearedRecord(h, e);
    RememberedFields(h, file, c);
    MergedShape(h, Entries(file), c);
    ClearedFailedAt(h, Entries(file), c);
  }

  lemma ClearedFailedAt(h: Host, s: seq<Record>, e: Record)
    requires e.lastAckFailedAt.Undefined?
    ensures Written(Merged(h, s, e)).lastAckFailedAt.Absent?
  {
  }

  /** After a failure has been cleared no record of its key carries one. */
  lemma ClearedKeyIsClean(h: Host, file: File, e: Record, r: Record)
    requires Valid(Entries(file)) && h.now != 0 && Addressed(Normalize(h, e)) && Settles(h, e.project)
    requires r in Entries(RememberFile(h, file, ClearedRecord(h, e))) && KeyText(r) == Key(h, Normalize(h, e))
    ensures !Failing(r) && !NoticeDue(r)
  {
    var s, c := Entries(file), ClearedRecord(h, e);
    ClearedIsClean(h, file, e);
    RememberIsInsert(h, file, c);
    SameKeyWhenCleared(h, e);
    hide RememberFile, Merged, Normalize, Failing, NoticeDue, Settles, Insert, Filter, Settled, KeyText;
    var m := Written(Merged(h, s, c));
    InsertMember(m, Others(h, s, c), Ts, r);
    if r != m {
      FilterMember(s, OtherKey(h, Key(h, Normalize(h, c))), r);
      SettledNormal(h, r);
    }
  }

  lemma SameKeyWhenCleared(h: Host, e: Record)
    ensures Key(h, Normalize(h, ClearedRecord(h, e))) == Key(h, Normalize(h, e))
    ensures Addressed(Normalize(h, ClearedRecord(h, e))) == Addressed(Normalize(h, e))
  {
  }

  /** How often the acknowledgement of a record has failed. */
  function Attempts(found: Option<Record>): int {
    if found.Some? && found.value.ackAttempts.Value? then found.value.ackAttempts.value else 0
  }

  /** What a failed acknowledgement stores: a failure that is due, at the time of the call, with the error's
      first 800 characters and one attempt more than the record it found. */
  lemma FailureIsDue(h: Host, file: File, a: Failure)
    requires Valid(Entries(file)) && h.now != 0
    requires Trim(JavaScript, a.project) != "" && Trim(JavaScript, a.ticket) != ""
    ensures var m := Written(Merged(h, Entries(file), FailureRecord(h, file, a)));
            var found := ReadFor(h, file, a.project, a.sessionId);
            var error := if a.error != "" then a.error else "HOST_DISPATCH_ACK_FAILED";
            && NoticeDue(m) && m.errorReportedAt.Absent?
            && m.lastAckError.Value? && m.lastAckError.value <= error
            && |m.lastAckError.value| == (if |error| <= 800 then |error| else 800)
            && m.lastAckFailedAt == Value(h.now) && m.ts == h.now
            && m.ackAttempts == Value(Attempts(found) + 1)
            && m.ticket == Trim(JavaScript, a.ticket)
            && m.project == NormalizeProject(h.cwd, NormalizeProject(h.cwd, a.project))
            && m.sessionId == Trim(JavaScript, if a.sessionId != "" then a.sessionId
                                               else if found.Some? then found.value.sessionId else "")
            && m.actor == Trim(JavaScript, if a.actor != "" then a.actor
                                           else if found.Some? then found.value.actor else "")
            && m.action == Trim(JavaScript, if a.action != "" then a.action
                                            else if found.Some? then found.value.action else "")
            && m.workflow == Trim(JavaScript, if a.workflow != "" then a.workflow
                                              else if found.Some? then found.value.workflow else "")
  {
    hide ReadFor, Trim, NormalizeProject, Valid, Merged;
    var e := FailureRecord(h, file, a);
    AddressedIff(h, e);
    RememberedFields(h, file, e);
    MergedShape(h, Entries(file), e);
  }

  lemma AddressedIff(h: Host, e: Record)
    ensures Addressed(Normalize(h, e)) <==> Trim(JavaScript, e.project) != "" && Trim(JavaScript, e.ticket) != ""
  {
    NormalShape(h.cwd, e.project);
  }

  /** A record with another key is still there, or the file is full of records no older than it. */
  lemma EvictedAreOldest(h: Host, file: File, e: Record, r: Record)
    requires Valid(Entries(file)) && h.now != 0 && Addressed(Normalize(h, e))
    requires r in Entries(file) && KeyText(r) != Key(h, Normalize(h, e))
    ensures var after := Entries(RememberFile(h, file, e));
            r in after || (|after| == MAX_ENTRIES && forall k :: k in after ==> k.ts >= r.ts)
  {
    var s := Entries(file);
    RememberIsInsert(h, file, e);
    var m := Written(Merged(h, s, e));
    var rest := Others(h, s, e);
    var all := Insert(m, rest, Ts);
    SettledNormal(h, r);
    FilterMember(s, OtherKey(h, Key(h, Normalize(h, e))), r);
    InsertMember(m, rest, Ts, r);
    InsertDescending(m, rest, Ts);
    NewestOfSorted(all, r);
  }

  /** The records of other keys that a new front record leaves under the cap. */
  function Kept(h: Host, s: seq<Record>, e: Record): seq<Record> {
    var rest := Others(h, s, e);
    if |rest| >= MAX_ENTRIES then rest[..MAX_ENTRIES - 1] else rest
  }

  /** When a newest record can be read back under the project and session it was remembered with: its
      project settles, and for a named session one normalisation settles it or the session keeps no other
      record; for no session, no other kept record is one the read could mean. */
  predicate ReadsBack(h: Host, s: seq<Record>, e: Record) {
    var once := NormalizeProject(h.cwd, e.project);
    var sid := Trim(JavaScript, e.sessionId);
    && Settles(h, e.project)
    && if sid != "" then Trimmed(JavaScript, once) || forall r :: r in Kept(h, s, e) ==> r.sessionId != sid
       else if Trimmed(JavaScript, once) then forall r :: r in Kept(h, s, e) ==> r.project != once
       else Kept(h, s, e) == []
  }

  lemma OthersAreStored(h: Host, s: seq<Record>, e: Record)
    ensures forall r :: r in Others(h, s, e) ==> r in s
    ensures forall r :: r in Kept(h, s, e) ==> r in Others(h, s, e)
  {
    forall r | r in Others(h, s, e) ensures r in s {
      FilterMember(s, OtherKey(h, Key(h, Normalize(h, e))), r);
    }
  }

  lemma NewestWithFront(m: Record, h: Host, s: seq<Record>, e: Record)
    requires |Others(h, s, e)| <= MAX_ENTRIES
    ensures Newest([m] + Others(h, s, e)) == [m] + Kept(h, s, e)
  {
    hide Others;
  }

  /** A newest record is stored in front of what is kept. */
  lemma NewestInFront(h: Host, file: File, e: Record)
    requires Valid(Entries(file)) && h.now != 0 && Addressed(Normalize(h, e))
    requires forall r :: r in Entries(file) ==> (if e.ts == 0 then h.now else e.ts) >= r.ts
    ensures Entries(RememberFile(h, file, e)) == [Written(Merged(h, Entries(file), e))] + Kept(h, Entries(file), e)
    ensures forall r :: r in Kept(h, Entries(file), e) ==> Settled(r)
  {
    hide Others, Merged, RememberFile, Normalize, Kept, Trim, NormalizeProject, Settled, KeyText, Newest;
    var s := Entries(file);
    RememberIsInsert(h, file, e);
    MergedShape(h, s, e);
    OthersAreStored(h, s, e);
    var m := Written(Merged(h, s, e));
    InsertFirst(m, Others(h, s, e), Ts);
    NewestWithFront(m, h, s, e);
  }

  /** A record at least as new as all stored ones is the one its project and session read back exactly
      under `ReadsBack`. */
  lemma RememberThenRead(h: Host, file: File, e: Record, later: Host)
    requires Valid(Entries(file)) && h.now != 0 && Addressed(Normalize(h, e))
    requires later.cwd == h.cwd
    requires forall r :: r in Entries(file) ==> (if e.ts == 0 then h.now else e.ts) >= r.ts
    ensures ReadFor(later, RememberFile(h, file, e), e.project, e.sessionId)
         == Some(Written(Merged(h, Entries(file), e)))
       <==> ReadsBack(h, Entries(file), e)
  {
    var s := Entries(file);
    var m := Written(Merged(h, s, e));
    var after := RememberFile(h, file, e);
    NewestInFront(h, file, e);
    MergedShape(h, s, e);
    MergedSettled(h, s, e);
    if Settles(h, e.project) {
      RememberKeepsValid(h, file, e);
      ReadIsChosen(later, after, e.project, e.sessionId);
      SettlesIff(h, e.project);
      NormalizeIdempotentIff(h.cwd, e.project);
      hide RememberFile, Merged, Settles, NormalizeProject, Trim, Normalize, Kept, Others;
      assert Entries(after) == [m] + Kept(h, s, e);
      var once := NormalizeProject(h.cwd, e.project);
      if m.sessionId != "" {
        ReadFrontNamed(Entries(after), m, Kept(h, s, e), once);
      } else {
        ReadFrontUnnamed(Entries(after), m, Kept(h, s, e), once);
      }
    } else {
      UnsettledUnread(later, after, m, Kept(h, s, e), e.project, e.sessionId);
    }
  }

  lemma ReadFrontNamed(s: seq<Record>, m: Record, rest: seq<Record>, once: string)
    requires s == [m] + rest && once != "" && m.sessionId != ""
    requires once == m.project || forall r :: r in rest ==> r.project != once
    ensures Chosen(s, once, m.sessionId) == Some(m)
       <==> once == m.project || forall r :: r in rest ==> r.sessionId != m.sessionId
  {
    var mine := Filter(rest, OfSession(m.sessionId));
    assert s[1..] == rest;
    assert Filter(s, OfSession(m.sessionId)) == [m] + mine;
    assert ([m] + mine)[1..] == mine;
    FilterEmptyIff(rest, OfSession(m.sessionId));
    FilterEmptyIff(mine, OfProject(once));
    hide Filter;
    forall r | r in mine ensures r in rest {
      FilterMember(rest, OfSession(m.sessionId), r);
    }
    FilterFirst(m, mine, OfProject(once));
  }

  lemma ReadFrontUnnamed(s: seq<Record>, m: Record, rest: seq<Record>, once: string)
    requires s == [m] + rest && once != ""
    requires once == m.project || forall r :: r in rest ==> r.project != once
    ensures Chosen(s, once, "") == Some(m)
       <==> if once == m.project then forall r :: r in rest ==> r.project != once else rest == []
  {
    FilterFirst(m, rest, OfProject(once));
    FilterEmptyIff(rest, OfProject(once));
    hide Filter;
  }

  lemma LoadMember(h: Host, file: File, r: Record) returns (stored: Record)
    requires r in Load(h, file)
    ensures stored in Entries(file) && Normalize(h, stored) == r
  {
    FilterMember(NormalizeAll(h, Entries(file)), Addressed, r);
    stored := NormalizedFrom(h, Entries(file), r);
  }

  lemma {:induction false} NormalizedFrom(h: Host, s: seq<Record>, r: Record) returns (stored: Record)
    requires r in NormalizeAll(h, s)
    ensures stored in s && Normalize(h, stored) == r
  {
    if Normalize(h, s[0]) == r {
      stored := s[0];
    } else {
      stored := NormalizedFrom(h, s[1..], r);
    }
  }

  /** Whatever is read is one of the loaded records. */
  lemma ReadIsLoaded(h: Host, file: File, project: string, sessionId: string)
    ensures var got := ReadFor(h, file, project, sessionId);
            got.Some? ==> got.value in Load(h, file)
  {
    var p, sid := NormalizeProject(h.cwd, project), Trim(JavaScript, sessionId);
    var entries := Load(h, file);
    var got := ReadFor(h, file, project, sessionId);
    if got.Some? {
      var r := got.value;
      FilterMember(entries, OfSession(sid), r);
      FilterMember(entries, OfProject(p), r);
      var own := Filter(entries, OfSession(sid));
      FilterMember(own, OfProject(p), r);
      SortMember(own, Ts, r);
      SortMember(Filter(own, OfProject(p)), Ts, r);
      hide Load, Filter, NormalizeProject, Trim;
    }
  }

  /** A record whose project does not settle is never read as it was stored. */
  lemma UnsettledUnread(h: Host, file: File, m: Record, rest: seq<Record>, project: string, sessionId: string)
    requires Entries(file) == [m] + rest && forall r :: r in rest ==> Settled(r)
    requires !Trimmed(JavaScript, m.project)
    ensures ReadFor(h, file, project, sessionId) != Some(m)
  {
    if ReadFor(h, file, project, sessionId) == Some(m) {
      ReadIsLoaded(h, file, project, sessionId);
      var stored := LoadMember(h, file, m);
      NormalizeIdempotentIff(h.cwd, stored.project);
      if stored == m {
        NormalizeIdempotentIff(h.cwd, m.project);
        CanonicalIsFixedPoint(h.cwd, m.project);
      } else {
        SettledNormal(h, stored);
      }
      assert false;
    }
  }

  /** Two records of one project: no session reads either. */
  lemma TwoOfProjectUnread(h: Host, file: File, e: Record, x: Record, later: Host)
    requires Valid(Entries(file)) && h.now != 0 && Addressed(Normalize(h, e)) && later.cwd == h.cwd
    requires forall r :: r in Entries(file) ==> (if e.ts == 0 then h.now else e.ts) >= r.ts
    requires Trim(JavaScript, e.sessionId) == "" && Trimmed(JavaScript, NormalizeProject(h.cwd, e.project))
    requires x in Kept(h, Entries(file), e) && x.project == NormalizeProject(h.cwd, e.project)
    ensures ReadFor(later, RememberFile(h, file, e), e.project, e.sessionId)
         != Some(Written(Merged(h, Entries(file), e)))
  {
    hide ReadFor, RememberFile, Merged, Kept, Trim, NormalizeProject, Valid;
    RememberThenRead(h, file, e, later);
  }

  /** The project "/a/ /" is stored as "/a" and looked up as "/a/ ": a session with another kept record
      does not read it back. */
  lemma BlankTailUnread(h: Host, file: File, e: Record, x: Record, later: Host)
    requires Valid(Entries(file)) && h.now != 0 && Addressed(Normalize(h, e)) && later.cwd == h.cwd
    requires forall r :: r in Entries(file) ==> (if e.ts == 0 then h.now else e.ts) >= r.ts
    requires e.project == "/a/ /" && Trim(JavaScript, e.sessionId) != ""
    requires x in Kept(h, Entries(file), e) && x.sessionId == Trim(JavaScript, e.sessionId)
    ensures ReadFor(later, RememberFile(h, file, e), e.project, e.sessionId)
         != Some(Written(Merged(h, Entries(file), e)))
  {
    NormalizeTwiceDiffers(h.cwd);
    NormalizeIdempotentIff(h.cwd, e.project);
    hide ReadFor, RememberFile, Merged, Kept, Trim, NormalizeProject, Valid;
    RememberThenRead(h, file, e, later);
  }

  /** Removal drops exactly the records that match every argument given, and keeps the order. */
  lemma RemoveExact(h: Host, file: File, project: string, sessionId: string, ticket: string)
    requires Valid(Entries(file))
    ensures var p, sid, tid := NormalizeProject(h.cwd, project), Trim(JavaScript, sessionId), Trim(JavaScript, ticket);
            var after := Entries(RemoveFile(h, file, project, sessionId, ticket));
            && after == Filter(Entries(file), Keeps(p, sid, tid))
            && Valid(after)
            && forall r :: r in after <==>
                 r in Entries(file) && !((p == "" || r.project == p) && (sid == "" || r.sessionId == sid)
                                         && (tid == "" || r.ticket == tid))
  {
    var s := Entries(file);
    var keep := Keeps(NormalizeProject(h.cwd, project), Trim(JavaScript, sessionId), Trim(JavaScript, ticket));
    LoadValid(h, file);
    FilterValid(s, keep);
    SavedSame(Filter(s, keep));
    forall r ensures r in Filter(s, keep) <==> r in s && keep(r) {
      FilterMember(s, keep, r);
    }
  }

  // ----- one notice per failure

  lemma NoDuplicates(s: seq<Record>)
    requires DistinctKeys(s)
    ensures forall x :: multiset(s)[x] <= 1
  {
    if s == [] {
    } else {
      NoDuplicates(s[1..]);
      assert s == [s[0]] + s[1..];
      forall k | 0 <= k < |s[1..]| ensures s[1..][k] != s[0] {
        assert KeyText(s[0]) != KeyText(s[k + 1]);
      }
    }
  }

  function Unlike(r: Record): Record -> bool {
    (x: Record) => x != r
  }

  lemma {:induction false} MarkProperties(s: seq<Record>, r: Record, now: int)
    requires r in s && DistinctKeys(s)
    ensures |Mark(s, r, now)| == |s|
    ensures forall i :: 0 <= i < |s| ==> Mark(s, r, now)[i] == if s[i] == r then Reported(r, now) else s[i]
  {
    if s[0] == r {
      forall i | 0 < i < |s| ensures s[i] != r {
        assert KeyText(s[0]) != KeyText(s[i]);
      }
    } else {
      MarkProperties(s[1..], r, now);
    }
  }

  lemma {:induction false} FilterMark(s: seq<Record>, r: Record, now: int, keep: Record -> bool, both: Record -> bool)
    requires r in s && DistinctKeys(s)
    requires !keep(Reported(r, now))
    requires forall x :: x in s ==> both(x) == (keep(x) && x != r)
    ensures Filter(Mark(s, r, now), keep) == Filter(s, both)
  {
    if s[0] == r {
      forall i | 0 < i < |s| ensures s[i] != r {
        assert KeyText(s[0]) != KeyText(s[i]);
      }
      FilterSame(s[1..], keep, both);
    } else {
      FilterMark(s[1..], r, now, keep, both);
    }
  }

  function DueFor(sid: string): Record -> bool {
    (r: Record) => NoticeDue(r) && ForSession(sid)(r)
  }

  function DueExcept(sid: string, r: Record): Record -> bool {
    (x: Record) => NoticeDue(x) && ForSession(sid)(x) && x != r
  }

  lemma DueIs(s: seq<Record>, sid: string)
    ensures Due(s, sid) == SortDescending(Filter(s, DueFor(sid)), FailedAt)
    ensures forall r :: r in Due(s, sid) <==> r in s && NoticeDue(r) && ForSession(sid)(r)
  {
    FilterFilter(s, NoticeDue, ForSession(sid), DueFor(sid));
    forall r ensures r in Due(s, sid) <==> r in s && DueFor(sid)(r) {
      SortMember(Filter(s, DueFor(sid)), FailedAt, r);
      FilterMember(s, DueFor(sid), r);
    }
  }

  lemma DueHasNoDuplicates(s: seq<Record>, sid: string)
    requires DistinctKeys(s)
    ensures forall x :: multiset(Due(s, sid))[x] <= 1
  {
    DueIs(s, sid);
    FilterKeepsDistinct(s, DueFor(sid));
    NoDuplicates(Filter(s, DueFor(sid)));
    SortProperties(Filter(s, DueFor(sid)), FailedAt);
  }

  /** Marking the newest due record as reported takes exactly it off the list. */
  lemma DueAfterMark(s: seq<Record>, sid: string, now: int)
    requires DistinctKeys(s) && now != 0 && Due(s, sid) != []
    ensures Due(Mark(s, Due(s, sid)[0], now), sid) == Due(s, sid)[1..]
  {
    var due := Due(s, sid);
    var r := due[0];
    DueIs(s, sid);
    assert r in due;
    var marked := Mark(s, r, now);
    DueIs(marked, sid);
    assert !NoticeDue(Reported(r, now));
    FilterMark(s, r, now, DueFor(sid), DueExcept(sid, r));
    FilterFilter(s, DueFor(sid), Unlike(r), DueExcept(sid, r));
    FilterSort(Filter(s, DueFor(sid)), Unlike(r), FailedAt);
    DueHasNoDuplicates(s, sid);
    assert due == [r] + due[1..];
    assert multiset(due)[r] == 1 + multiset(due[1..])[r];
    assert r !in due[1..];
    FilterAll(due[1..], Unlike(r));
  }

  lemma MarkKeepsValid(s: seq<Record>, r: Record, now: int)
    requires Valid(s) && r in s
    ensures Valid(Mark(s, r, now))
  {
    MarkProperties(s, r, now);
    var t := Mark(s, r, now);
    forall i | 0 <= i < |s| ensures Ts(t[i]) == Ts(s[i]) && KeyText(t[i]) == KeyText(s[i]) && Settled(t[i]) {
      assert s[i] in s;
    }
  }

  /** One consumption on a valid file: it gives the newest due failure and takes it off the list;
      with none due it gives nothing and changes nothing. */
  lemma ConsumeTakesNewest(h: Host, file: File, sessionId: string)
    requires Valid(Entries(file))
    ensures var sid := Trim(JavaScript, sessionId);
            var due := Due(Entries(file), sid);
            var (after, notice) := ConsumeFile(h, file, sessionId);
            && Valid(Entries(after))
            && (due == [] ==> after == file && notice == None)
            && (due != [] ==>
                 && notice == Some(NoticeOf(due[0], sid))
                 && Entries(after) == Mark(Entries(file), due[0], h.now)
                 && (h.now != 0 ==> Due(Entries(after), sid) == due[1..]))
  {
    var s := Entries(file);
    var sid := Trim(JavaScript, sessionId);
    LoadValid(h, file);
    var due := Due(s, sid);
    if due != [] {
      DueIs(s, sid);
      assert due[0] in due;
      MarkKeepsValid(s, due[0], h.now);
      SavedSame(Mark(s, due[0], h.now));
      if h.now != 0 {
        DueAfterMark(s, sid, h.now);
      }
    }
  }

  /** The notices that repeated consumption gives, one call per host state in `hosts`. */
  function Drain(hosts: seq<Host>, file: File, sessionId: string): seq<Option<Notice>> {
    if hosts == [] then []
    else
      var (after, notice) := ConsumeFile(hosts[0], file, sessionId);
      [notice] + Drain(hosts[1..], after, sessionId)
  }

  /** Repeated consumption gives every due failure of the session exactly once, newest first,
      and nothing from then on. */
  lemma {:induction false} DrainGivesEachOnce(hosts: seq<Host>, file: File, sessionId: string)
    requires Valid(Entries(file))
    requires forall h :: h in hosts ==> h.now != 0
    ensures var due := Due(Entries(file), Trim(JavaScript, sessionId));
            var notices := Drain(hosts, file, sessionId);
            && |notices| == |hosts|
            && forall k :: 0 <= k < |hosts| ==>
                 notices[k] == if k < |due| then Some(NoticeOf(due[k], Trim(JavaScript, sessionId))) else None
  {
    hide ConsumeFile, Due, Valid, Mark, Trim, NoticeOf;
    if hosts == [] {
    } else {
      assert hosts[0] in hosts;
      ConsumeTakesNewest(hosts[0], file, sessionId);
      var (after, notice) := ConsumeFile(hosts[0], file, sessionId);
      DrainGivesEachOnce(hosts[1..], after, sessionId);
    }
  }

  /** What a notice says: the record's ticket, project, session and its own error. */
  lemma NoticeSays(r: Record, sid: string)
    requires NoticeDue(r)
    ensures NoticeOf(r, sid)
         == Notice(r.ticket, r.project, if r.sessionId != "" then r.sessionId else sid, r.lastAckError.value)
  {
  }

  /** A due record in front of the file whose failure is the newest of those due is the next one reported. */
  lemma FrontIsReported(h: Host, file: File, m: Record, rest: seq<Record>, sessionId: string)
    requires Valid(Entries(file)) && Entries(file) == [m] + rest
    requires NoticeDue(m) && (Trim(JavaScript, sessionId) == "" || m.sessionId == Trim(JavaScript, sessionId))
    ensures ConsumeFile(h, file, sessionId).1.Some?
    ensures (forall x :: x in rest && NoticeDue(x) ==> FailedAt(m) >= FailedAt(x)) ==>
              ConsumeFile(h, file, sessionId).1 == Some(NoticeOf(m, Trim(JavaScript, sessionId)))
  {
    var s, sid := Entries(file), Trim(JavaScript, sessionId);
    ConsumeTakesNewest(h, file, sessionId);
    DueIs(s, sid);
    assert m in s;
    assert m in Due(s, sid);
    FilterFirst(m, rest, DueFor(sid));
    hide ConsumeFile, Filter, Trim, Due, Valid;
    if forall x :: x in rest && NoticeDue(x) ==> FailedAt(m) >= FailedAt(x) {
      var other := Filter(rest, DueFor(sid));
      forall y | y in SortDescending(other, FailedAt) ensures FailedAt(m) >= FailedAt(y) {
        SortMember(other, FailedAt, y);
        FilterMember(rest, DueFor(sid), y);
      }
      SortFirst(m, other);
      InsertFirst(m, SortDescending(other, FailedAt), FailedAt);
    }
  }

  lemma SortFirst(m: Record, other: seq<Record>)
    ensures SortDescending([m] + other, FailedAt) == Insert(m, SortDescending(other, FailedAt), FailedAt)
  {
    assert ([m] + other)[1..] == other;
  }

  /** A failure recorded now, with no newer record stored, is reported by the next consumption for its session:
      that one gives a notice, and this failure's when none due has failed later. */
  lemma FailureIsReported(h: Host, file: File, a: Failure, later: Host)
    requires Valid(Entries(file)) && h.now != 0 && Settles(h, a.project)
    requires Trim(JavaScript, a.project) != "" && Trim(JavaScript, a.ticket) != ""
    requires forall r :: r in Entries(file) ==> r.ts <= h.now
    ensures var m := Written(Merged(h, Entries(file), FailureRecord(h, file, a)));
            var after := RememberFile(h, file, FailureRecord(h, file, a));
            var notice := ConsumeFile(later, after, m.sessionId).1;
            && notice.Some?
            && ((forall x :: x in Entries(file) && NoticeDue(x) ==> FailedAt(x) <= h.now) ==>
                  notice == Some(Notice(m.ticket, m.project, m.sessionId, m.lastAckError.value)))
  {
    hide RememberFile, Merged, ReadFor, Trim, NormalizeProject, Valid, ConsumeFile, Kept, Settles, Normalize, Others, NoticeDue;
    var s, e := Entries(file), FailureRecord(h, file, a);
    var m := Written(Merged(h, s, e));
    FailureIsDue(h, file, a);
    AddressedIff(h, e);
    RememberKeepsValid(h, file, e);
    NewestInFront(h, file, e);
    OthersAreStored(h, s, e);
    TrimOfStored(h, s, e);
    NoticeSays(m, m.sessionId);
    FrontIsReported(later, RememberFile(h, file, e), m, Kept(h, s, e), m.sessionId);
  }

  lemma TrimOfStored(h: Host, s: seq<Record>, e: Record)
    requires Addressed(Normalize(h, e)) 
    ensures var m := Written(Merged(h, s, e)); Trim(JavaScript, m.sessionId) == m.sessionId
  {
    MergedShape(h, s, e);
    TrimProperties(JavaScript, e.sessionId);
    TrimProperties(JavaScript, Trim(JavaScript, e.sessionId));
  }

  /** The latest record of a session: its newest, and none of another session; without a session the only
      record of the file. */
  lemma LatestIff(h: Host, file: File, sessionId: string)
    requires Valid(Entries(file))
    ensures var s, sid := Entries(file), Trim(JavaScript, sessionId);
            var got := ReadLatest(h, file, sessionId);
            && (sid != "" ==>
                  && (got.None? <==> forall r :: r in s ==> r.sessionId != sid)
                  && (got.Some? ==> got.value in s && got.value.sessionId == sid
                                    && forall r :: r in s && r.sessionId == sid ==> got.value.ts >= r.ts))
            && (sid == "" ==> got == if |s| == 1 then Some(s[0]) else None)
  {
    LoadValid(h, file);
    var s, sid := Entries(file), Trim(JavaScript, sessionId);
    var own := Filter(s, OfSession(sid));
    DescendingFilter(s, OfSession(sid), Ts);
    forall r ensures r in own <==> r in s && r.sessionId == sid {
      FilterMember(s, OfSession(sid), r);
    }
    FilterEmptyIff(s, OfSession(sid));
    SortSorted(own, Ts);
    hide Load, Filter, Trim;
    forall r | r in own ensures own[0].ts >= r.ts {
      var i :| 0 <= i < |own| && own[i] == r;
      assert Ts(own[0]) >= Ts(own[i]);
    }
  }
}
