/** Runs of the dispatch registry: what every sequence of calls keeps, and what a session
    can and cannot do to the records of another. */
module RegistryRuns {
  import opened Text
  import opened Lists
  import opened HostPath
  import opened DispatchRegistry

  datatype Op =
    | Remember(e: Record)
    | Fail(a: Failure)
    | Clear(e: Record)
    | Remove(project: string, sessionId: string, ticket: string)
    | Consume(sessionId: string)

  datatype Call = Call(h: Host, op: Op)

  /** The record a call writes, if it is one of the three that write a record. */
  function WrittenBy(file: File, c: Call): Option<Record> {
    match c.op
    case Remember(e) => Some(e)
    case Fail(a) => Some(FailureRecord(c.h, file, a))
    case Clear(e) => Some(ClearedRecord(c.h, e))
    case Remove(_, _, _) => None
    case Consume(_) => None
  }

  function Step(file: File, c: Call): (File, Option<Notice>) {
    match c.op
    case Remember(e) => (RememberFile(c.h, file, e), None)
    case Fail(a) => (RememberFile(c.h, file, FailureRecord(c.h, file, a)), None)
    case Clear(e) => (RememberFile(c.h, file, ClearedRecord(c.h, e)), None)
    case Remove(project, sessionId, ticket) => (RemoveFile(c.h, file, project, sessionId, ticket), None)
    case Consume(sessionId) => ConsumeFile(c.h, file, sessionId)
  }

  /** The final file and the notices given on the way. */
  function Run(file: File, calls: seq<Call>): (File, seq<Notice>)
    decreases calls
  {
    if calls == [] then (file, [])
    else
      var (next, notice) := Step(file, calls[0]);
      var (last, notices) := Run(next, calls[1..]);
      (last, (if notice.Some? then [notice.value] else []) + notices)
  }

  /** The clock has started, and the project a call writes is safe to store. */
  predicate Admissible(c: Call) {
    && c.h.now != 0
    && match c.op
       case Remember(e) => Settles(c.h, e.project)
       case Fail(a) => Settles(c.h, a.project)
       case Clear(e) => Settles(c.h, e.project)
       case Remove(_, _, _) => true
       case Consume(_) => true
  }

  lemma StepKeepsValid(file: File, c: Call)
    requires Valid(Entries(file)) && Admissible(c)
    ensures Valid(Entries(Step(file, c).0))
  {
    match c.op
    case Remember(e) => RememberKeepsValid(c.h, file, e);
    case Fail(a) => RememberKeepsValid(c.h, file, FailureRecord(c.h, file, a));
    case Clear(e) => RememberKeepsValid(c.h, file, ClearedRecord(c.h, e));
    case Remove(project, sessionId, ticket) => RemoveExact(c.h, file, project, sessionId, ticket);
    case Consume(sessionId) => ConsumeTakesNewest(c.h, file, sessionId);
  }

  /** Every file reachable from a valid one, in particular from no file, is valid: distinct keys,
      settled records, newest first, at most 128 of them. */
  lemma {:induction false} RunKeepsValid(file: File, calls: seq<Call>)
    requires Valid(Entries(file))
    requires forall c :: c in calls ==> Admissible(c)
    ensures Valid(Entries(Run(file, calls).0))
    decreases calls
  {
    if calls == [] {
    } else {
      assert calls[0] in calls;
      StepKeepsValid(file, calls[0]);
      RunKeepsValid(Step(file, calls[0]).0, calls[1..]);
    }
  }

  /** At most 128 records, newest first: what holds after every save, whatever is stored. */
  ghost predicate NewestFirst(file: File) {
    |Entries(file)| <= MAX_ENTRIES && Descending(Entries(file), Ts)
  }

  lemma StepKeepsNewestFirst(file: File, c: Call)
    requires NewestFirst(file)
    ensures NewestFirst(Step(file, c).0)
  {
    hide NewestFirst, RememberFile, RemoveFile, ConsumeFile, FailureRecord, ClearedRecord;
    match c.op
    case Remember(e) => RememberNewestFirst(c.h, file, e);
    case Fail(a) => RememberNewestFirst(c.h, file, FailureRecord(c.h, file, a));
    case Clear(e) => RememberNewestFirst(c.h, file, ClearedRecord(c.h, e));
    case Remove(project, sessionId, ticket) => RemoveNewestFirst(c.h, file, project, sessionId, ticket);
    case Consume(sessionId) => ConsumeNewestFirst(c.h, file, sessionId);
  }

  lemma RemoveNewestFirst(h: Host, file: File, project: string, sessionId: string, ticket: string)
    ensures NewestFirst(RemoveFile(h, file, project, sessionId, ticket))
  {
    hide Saved, Load, Filter, NormalizeProject, Trim;
    SavedKeepsNewest(Filter(Load(h, file), Keeps(NormalizeProject(h.cwd, project), Trim(JavaScript, sessionId),
                                                 Trim(JavaScript, ticket))));
  }

  lemma ConsumeNewestFirst(h: Host, file: File, sessionId: string)
    requires NewestFirst(file)
    ensures NewestFirst(ConsumeFile(h, file, sessionId).0)
  {
    hide Saved, Load, Mark, Due, Trim;
    var due := Due(Load(h, file), Trim(JavaScript, sessionId));
    if due != [] {
      SavedKeepsNewest(Mark(Load(h, file), due[0], h.now));
    }
  }

  lemma RememberNewestFirst(h: Host, file: File, e: Record)
    requires NewestFirst(file)
    ensures NewestFirst(RememberFile(h, file, e))
  {
    hide Saved, Descending, Load, Filter, Merged;
    SavedKeepsNewest([Merged(h, Load(h, file), e)]
                     + Filter(Load(h, file), OtherKey(h, Key(h, Normalize(h, e)))));
  }

  /** Whatever projects and clocks a run has, its file stays within the cap and newest first. */
  lemma {:induction false} RunKeepsNewestFirst(file: File, calls: seq<Call>)
    requires NewestFirst(file)
    ensures NewestFirst(Run(file, calls).0)
    ensures var out := Entries(Run(file, calls).0);
            |out| <= 128 && forall i, j :: 0 <= i < j < |out| ==> out[i].ts >= out[j].ts
    decreases calls
  {
    if calls == [] {
    } else {
      hide Step, NewestFirst;
      StepKeepsNewestFirst(file, calls[0]);
      RunKeepsNewestFirst(Step(file, calls[0]).0, calls[1..]);
    }
  }

  // ----- sessions do not interfere

  /** The session a call acts for. */
  function ActingSession(c: Call): string {
    Trim(JavaScript,
         match c.op
         case Remember(e) => e.sessionId
         case Fail(a) => a.sessionId
         case Clear(e) => e.sessionId
         case Remove(_, sessionId, _) => sessionId
         case Consume(sessionId) => sessionId)
  }

  /** The call writes a record whose key text is that of a stored record of session `other`. */
  predicate Displaces(file: File, c: Call, other: string) {
    var e := WrittenBy(file, c);
    && e.Some? && Addressed(Normalize(c.h, e.value))
    && exists r :: r in Entries(file) && r.sessionId == other
                   && KeyText(r) == Key(c.h, Normalize(c.h, e.value))
  }

  function Own(file: File, session: string): seq<Record> {
    Filter(Entries(file), OfSession(session))
  }

  lemma WrittenSession(file: File, c: Call)
    requires WrittenBy(file, c).Some? && ActingSession(c) != ""
    ensures Trim(JavaScript, WrittenBy(file, c).value.sessionId) == ActingSession(c)
  {
  }

  lemma {:induction false} FilterDropsSome<T>(s: seq<T>, p: T -> bool, both: T -> bool, x: T)
    requires x in s && p(x) && !both(x)
    requires forall y :: y in s ==> both(y) ==> p(y)
    ensures |Filter(s, both)| < |Filter(s, p)|
  {
    if s[0] == x {
      FilterShorter(s[1..], p, both);
    } else {
      FilterDropsSome(s[1..], p, both, x);
    }
  }

  lemma {:induction false} FilterShorter<T>(s: seq<T>, p: T -> bool, q: T -> bool)
    requires forall y :: y in s ==> q(y) ==> p(y)
    ensures |Filter(s, q)| <= |Filter(s, p)|
  {
    if s == [] {
    } else {
      FilterShorter(s[1..], p, q);
    }
  }

  function OwnOther(h: Host, wanted: string, session: string): Record -> bool {
    (r: Record) => OtherKey(h, wanted)(r) && OfSession(session)(r)
  }

  /** Writing a record for one session: another session's records stay in order. They lose their
      oldest only to the cap, and below the cap they are untouched exactly when no key collides. */
  lemma RememberLeavesOthers(h: Host, file: File, e: Record, other: string)
    requires Valid(Entries(file)) && Addressed(Normalize(h, e))
    requires Trim(JavaScript, e.sessionId) != other
    ensures var collides := exists r :: r in Entries(file) && r.sessionId == other
                                        && KeyText(r) == Key(h, Normalize(h, e));
            var after := RememberFile(h, file, e);
            && (!collides ==> Own(after, other) <= Own(file, other))
            && (|Entries(file)| < MAX_ENTRIES ==> (Own(after, other) == Own(file, other) <==> !collides))
  {
    var s := Entries(file);
    var wanted := Key(h, Normalize(h, e));
    RememberIsInsert(h, file, e);
    MergedShape(h, s, e);
    var m := Written(Merged(h, s, e));
    var rest := Others(h, s, e);
    var all := Insert(m, rest, Ts);
    FilterInsert(m, rest, OfSession(other), Ts);
    FilterFilter(s, OtherKey(h, wanted), OfSession(other), OwnOther(h, wanted, other));
    assert Filter(all, OfSession(other)) == Filter(s, OwnOther(h, wanted, other));
    if |all| > MAX_ENTRIES {
      FilterPrefix(all, MAX_ENTRIES, OfSession(other));
    }
    FilterLength(s, OtherKey(h, wanted));
    InsertCounts(m, rest, Ts);
    if r :| r in s && r.sessionId == other && KeyText(r) == wanted {
      SettledNormal(h, r);
      FilterDropsSome(s, OfSession(other), OwnOther(h, wanted, other), r);
    } else {
      forall r | r in s ensures OwnOther(h, wanted, other)(r) == OfSession(other)(r) {
        SettledNormal(h, r);
      }
      FilterSame(s, OwnOther(h, wanted, other), OfSession(other));
    }
  }

  lemma {:induction false} MarkLeavesOthers(s: seq<Record>, r: Record, now: int, other: string)
    requires r.sessionId != other
    ensures Filter(Mark(s, r, now), OfSession(other)) == Filter(s, OfSession(other))
  {
    if s != [] && s[0] != r {
      MarkLeavesOthers(s[1..], r, now, other);
    }
  }

  function KeepsOwn(project: string, sid: string, ticket: string, session: string): Record -> bool {
    (r: Record) => Keeps(project, sid, ticket)(r) && OfSession(session)(r)
  }

  lemma RemoveLeavesOthers(h: Host, file: File, project: string, sessionId: string, ticket: string, other: string)
    requires Valid(Entries(file))
    requires Trim(JavaScript, sessionId) != "" && Trim(JavaScript, sessionId) != other
    ensures Own(RemoveFile(h, file, project, sessionId, ticket), other) == Own(file, other)
  {
    var s := Entries(file);
    var p, sid, tid := NormalizeProject(h.cwd, project), Trim(JavaScript, sessionId), Trim(JavaScript, ticket);
    RemoveExact(h, file, project, sessionId, ticket);
    FilterFilter(s, Keeps(p, sid, tid), OfSession(other), KeepsOwn(p, sid, tid, other));
    FilterSame(s, KeepsOwn(p, sid, tid, other), OfSession(other));
  }

  lemma ConsumeLeavesOthers(h: Host, file: File, sessionId: string, other: string)
    requires Valid(Entries(file))
    requires Trim(JavaScript, sessionId) != "" && Trim(JavaScript, sessionId) != other
    ensures Own(ConsumeFile(h, file, sessionId).0, other) == Own(file, other)
  {
    var s := Entries(file);
    var sid := Trim(JavaScript, sessionId);
    ConsumeTakesNewest(h, file, sessionId);
    var due := Due(s, sid);
    if due != [] {
      DueIs(s, sid);
      assert due[0] in due;
      MarkLeavesOthers(s, due[0], h.now, other);
    }
  }

  lemma UnaddressedIsIgnored(h: Host, file: File, e: Record)
    requires !Addressed(Normalize(h, e))
    ensures RememberFile(h, file, e) == file
  {
  }

  /** Any call of a named session leaves the ordered records of every other session alone,
      except for loss to the cap, unless it displaces one of them through its key text. */
  lemma SessionsDoNotInterfere(file: File, c: Call, other: string)
    requires Valid(Entries(file))
    requires ActingSession(c) != "" && ActingSession(c) != other
    ensures var after := Step(file, c).0;
            && (!Displaces(file, c, other) ==> Own(after, other) <= Own(file, other))
            && (|Entries(file)| < MAX_ENTRIES || c.op.Remove? || c.op.Consume? ==>
                  (Own(after, other) == Own(file, other) <==> !Displaces(file, c, other)))
  {
    hide RememberFile, RemoveFile, ConsumeFile, Normalize, KeyText, Addressed, FailureRecord, ClearedRecord, Trim, Own, Valid;
    match c.op
    case Remove(project, sessionId, ticket) =>
      RemoveLeavesOthers(c.h, file, project, sessionId, ticket, other);
    case Consume(sessionId) =>
      ConsumeLeavesOthers(c.h, file, sessionId, other);
    case _ =>
      WrittenSession(file, c);
      var e := WrittenBy(file, c).value;
      assert Step(file, c).0 == RememberFile(c.h, file, e);
      if Addressed(Normalize(c.h, e)) {
        RememberLeavesOthers(c.h, file, e, other);
      } else {
        UnaddressedIsIgnored(c.h, file, e);
      }
  }

  /** Names that the key text can be cut back into. */
  predicate PlainNames(r: Record) {
    '\n' !in r.sessionId && '\n' !in r.project && r.sessionId != "-"
  }

  lemma SplitThree(a: string, b: string, c: string)
    requires '\n' !in a && '\n' !in b
    ensures var parts := Split(a + "\n" + b + "\n" + c, '\n');
            |parts| >= 2 && parts[0] == a && parts[1] == b
  {
    var tail := "\n" + c;
    var middle := b + tail;
    var rest := "\n" + middle;
    SplitFirst(b, tail, '\n');
    SplitSeparator(middle, '\n');
    SplitFirst(a, rest, '\n');
    assert a + "\n" + b + "\n" + c == a + rest;
    hide Split;
    var ps := Split(tail, '\n');
    assert Split(a + rest, '\n') == [a] + ([""] + ([b] + ps[1..]))[1..];
  }

  /** Plain names make the key text stand for session, project and ticket. */
  lemma KeyTextInjective(a: Record, b: Record)
    requires PlainNames(a) && PlainNames(b)
    ensures KeyText(a) == KeyText(b) <==>
            a.sessionId == b.sessionId && a.project == b.project && a.ticket == b.ticket
  {
    var la := if a.sessionId == "" then "-" else a.sessionId;
    var lb := if b.sessionId == "" then "-" else b.sessionId;
    SplitThree(la, a.project, a.ticket);
    SplitThree(lb, b.project, b.ticket);
    hide Split;
    if KeyText(a) == KeyText(b) {
      var head := la + "\n" + a.project + "\n";
      assert KeyText(a) == head + a.ticket;
      assert KeyText(b) == head + b.ticket;
      assert a.ticket == KeyText(a)[|head|..];
      assert b.ticket == KeyText(b)[|head|..];
    }
  }

  /** With plain names nothing is displaced across sessions. */
  lemma PlainNamesDoNotDisplace(file: File, c: Call, other: string)
    requires Valid(Entries(file)) && ActingSession(c) != "" && ActingSession(c) != other
    requires forall r :: r in Entries(file) ==> PlainNames(r)
    requires WrittenBy(file, c).Some? ==> PlainNames(Normalize(c.h, Normalize(c.h, WrittenBy(file, c).value)))
    ensures !Displaces(file, c, other)
  {
    if Displaces(file, c, other) {
      WrittenSession(file, c);
      var e := WrittenBy(file, c).value;
      var n := Normalize(c.h, Normalize(c.h, e));
      TrimProperties(JavaScript, e.sessionId);
      TrimProperties(JavaScript, Trim(JavaScript, e.sessionId));
      var r :| r in Entries(file) && r.sessionId == other && KeyText(r) == KeyText(n);
      KeyTextInjective(r, n);
    }
  }

  /** The record that the session named "-" stores in place of one without session. */
  lemma DashStored(h: Host, r: Record)
    requires Settled(r) && r.sessionId == ""
    ensures var e := r.(sessionId := "-");
            && Addressed(Normalize(h, e))
            && Key(h, Normalize(h, e)) == KeyText(r)
            && Written(Merged(h, [r], e)).sessionId == "-"
  {
    var e := r.(sessionId := "-");
    assert Trim(JavaScript, "-") == "-";
    SettledNormal(h, r);
    SettledNormal(h, e);
    MergedShape(h, [r], e);
  }

  /** The session named "-" shares its keys with the records that have no session: remembering the
      same project and ticket for it removes the session-less record. */
  lemma DashSessionDisplaces(h: Host, r: Record)
    requires h.now != 0 && Settled(r) && r.sessionId == ""
    ensures Own(Some([r]), "") == [r]
    ensures Own(RememberFile(h, Some([r]), r.(sessionId := "-")), "") == []
  {
    hide Normalize, Merged, RememberFile, KeyText, Addressed, Settled, Written, NormalizeProject, Trim;
    var file := Some([r]);
    var e := r.(sessionId := "-");
    var wanted := Key(h, Normalize(h, e));
    DashStored(h, r);
    SettledNormal(h, r);
    RememberIsInsert(h, file, e);
    FilterNone([r], OtherKey(h, wanted));
    FilterNone([Written(Merged(h, [r], e))], OfSession(""));
  }

  /** What reading for a named session returns: the newest of its records for the project, else
      its only record, never a record of another session. */
  lemma ReadForOwnSession(h: Host, file: File, project: string, sessionId: string)
    requires Trim(JavaScript, sessionId) != ""
    ensures var sid, p := Trim(JavaScript, sessionId), NormalizeProject(h.cwd, project);
            var own := Filter(Load(h, file), OfSession(sid));
            var got := ReadFor(h, file, project, sessionId);
            && (got.Some? ==>
                  && got.value in Load(h, file)
                  && got.value.sessionId == sid
                  && ((p == "" || got.value.project == p) ==>
                        forall r :: r in own && (p == "" || r.project == p) ==> got.value.ts >= r.ts)
                  && (p != "" && got.value.project != p ==>
                        own == [got.value] && forall r :: r in own ==> r.project != p))
            && (got.None? <==> |own| != 1 && forall r :: r in own ==> p != "" && r.project != p)
  {
    hide Load, Filter, NormalizeProject, Trim, SortDescending, Descending, ReadFor;
    var sid, p := Trim(JavaScript, sessionId), NormalizeProject(h.cwd, project);
    var own := Filter(Load(h, file), OfSession(sid));
    var exact := if p != "" then Filter(own, OfProject(p)) else own;
    ReadShape(h, file, project, sessionId);
    forall r ensures r in own <==> r in Load(h, file) && r.sessionId == sid {
      FilterMember(Load(h, file), OfSession(sid), r);
    }
    forall r ensures r in exact <==> r in own && (p == "" || r.project == p) {
      FilterMember(own, OfProject(p), r);
    }
    if exact != [] {
      assert exact[0] in own;
      SortedFrontIsNewest(exact);
    } else {
      forall r | r in own ensures p != "" && r.project != p {
        assert r !in exact;
      }
    }
  }

  lemma ReadShape(h: Host, file: File, project: string, sessionId: string)
    requires Trim(JavaScript, sessionId) != ""
    ensures var own := Filter(Load(h, file), OfSession(Trim(JavaScript, sessionId)));
            var p := NormalizeProject(h.cwd, project);
            var exact := if p != "" then Filter(own, OfProject(p)) else own;
            && (exact != [] ==> SortDescending(exact, Ts) != [])
            && ReadFor(h, file, project, sessionId)
               == if exact != [] then Some(SortDescending(exact, Ts)[0]) else Sole(own)
  {
    hide Load, Filter, NormalizeProject, Trim;
    SortProperties(Filter(Filter(Load(h, file), OfSession(Trim(JavaScript, sessionId))),
                          OfProject(NormalizeProject(h.cwd, project))), Ts);
    SortProperties(Filter(Load(h, file), OfSession(Trim(JavaScript, sessionId))), Ts);
  }

  /** Sorting puts a newest record in front. */
  lemma SortedFrontIsNewest(s: seq<Record>)
    requires s != []
    ensures SortDescending(s, Ts) != [] && SortDescending(s, Ts)[0] in s
    ensures forall r :: r in s ==> SortDescending(s, Ts)[0].ts >= r.ts
  {
    var sorted := SortDescending(s, Ts);
    SortProperties(s, Ts);
    hide SortDescending;
    assert sorted[0] in sorted;
    SortMember(s, Ts, sorted[0]);
    forall r | r in s ensures sorted[0].ts >= r.ts {
      SortMember(s, Ts, r);
      var i :| 0 <= i < |sorted| && sorted[i] == r;
      assert Ts(sorted[0]) >= Ts(sorted[i]);
    }
  }

  // ----- at most one notice per recorded failure

  function DueCount(s: seq<Record>): nat {
    |Filter(s, NoticeDue)|
  }

  lemma {:induction false} LoadDueCount(h: Host, s: seq<Record>)
    ensures DueCount(Filter(NormalizeAll(h, s), Addressed)) <= DueCount(s)
  {
    if s == [] {
    } else {
      LoadDueCount(h, s[1..]);
    }
  }

  lemma {:induction false} WriteDueCount(s: seq<Record>)
    ensures DueCount(WriteAll(s)) == DueCount(s)
  {
    if s == [] {
    } else {
      WriteDueCount(s[1..]);
    }
  }

  lemma SavedDueCount(s: seq<Record>)
    ensures DueCount(Saved(s)) <= DueCount(s)
  {
    var sorted := SortDescending(s, Ts);
    FilterSort(s, NoticeDue, Ts);
    SortProperties(Filter(s, NoticeDue), Ts);
    if |sorted| > MAX_ENTRIES {
      FilterPrefix(sorted, MAX_ENTRIES, NoticeDue);
    }
    WriteDueCount(Newest(sorted));
  }

  lemma {:induction false} OthersDueCount(h: Host, s: seq<Record>, wanted: string)
    ensures var prior := FindKey(h, s, wanted);
            DueCount(Filter(s, OtherKey(h, wanted))) + (if prior.Some? && NoticeDue(prior.value) then 1 else 0)
            <= DueCount(s)
  {
    if s == [] {
    } else {
      if Key(h, s[0]) == wanted {
        OthersOnlyDrop(h, s[1..], wanted);
      } else {
        OthersDueCount(h, s[1..], wanted);
      }
    }
  }

  lemma {:induction false} OthersOnlyDrop(h: Host, s: seq<Record>, wanted: string)
    ensures DueCount(Filter(s, OtherKey(h, wanted))) <= DueCount(s)
  {
    if s == [] {
    } else {
      OthersOnlyDrop(h, s[1..], wanted);
    }
  }

  /** Remembering adds at most one due notice, and none unless the record brings its own failure fields. */
  lemma RememberDueCount(h: Host, file: File, e: Record)
    ensures DueCount(Entries(RememberFile(h, file, e))) <= DueCount(Entries(file)) + 1
    ensures (e.lastAckError.Absent? && e.errorReportedAt.Absent?) || e.lastAckError.Undefined? ==>
            DueCount(Entries(RememberFile(h, file, e))) <= DueCount(Entries(file))
  {
    var normalized := Normalize(h, e);
    if Addressed(normalized) {
      var entries := Load(h, file);
      LoadDueCount(h, Entries(file));
      var m := Merged(h, entries, e);
      var rest := Filter(entries, OtherKey(h, Key(h, normalized)));
      OthersDueCount(h, entries, Key(h, normalized));
      SavedDueCount([m] + rest);
      FilterConcat([m], rest, NoticeDue);
    }
  }

  lemma {:induction false} MarkDueCount(s: seq<Record>, r: Record, now: int)
    requires r in s && NoticeDue(r) && now != 0
    ensures DueCount(Mark(s, r, now)) + 1 == DueCount(s)
  {
    if s[0] != r {
      MarkDueCount(s[1..], r, now);
    }
  }

  lemma ConsumeDueCount(h: Host, file: File, sessionId: string)
    requires h.now != 0
    ensures var (after, notice) := ConsumeFile(h, file, sessionId);
            DueCount(Entries(after)) + (if notice.Some? then 1 else 0) <= DueCount(Entries(file))
  {
    var entries := Load(h, file);
    var due := Due(entries, Trim(JavaScript, sessionId));
    if due != [] {
      DueIs(entries, Trim(JavaScript, sessionId));
      assert due[0] in due;
      LoadDueCount(h, Entries(file));
      MarkDueCount(entries, due[0], h.now);
      SavedDueCount(Mark(entries, due[0], h.now));
    }
  }

  lemma RemoveDueCount(h: Host, file: File, project: string, sessionId: string, ticket: string)
    ensures DueCount(Entries(RemoveFile(h, file, project, sessionId, ticket))) <= DueCount(Entries(file))
  {
    var keep := Keeps(NormalizeProject(h.cwd, project), Trim(JavaScript, sessionId), Trim(JavaScript, ticket));
    LoadDueCount(h, Entries(file));
    FilterDueCount(Load(h, file), keep);
    SavedDueCount(Filter(Load(h, file), keep));
  }

  lemma {:induction false} FilterDueCount(s: seq<Record>, keep: Record -> bool)
    ensures DueCount(Filter(s, keep)) <= DueCount(s)
  {
    if s == [] {
    } else {
      FilterDueCount(s[1..], keep);
    }
  }

  function Failures(calls: seq<Call>): nat {
    if calls == [] then 0 else (if calls[0].op.Fail? then 1 else 0) + Failures(calls[1..])
  }

  function RecordsFailure(): Call -> bool {
    (c: Call) => c.op.Fail?
  }

  /** The number of the calls that record a failure. */
  lemma {:induction false} FailuresIs(calls: seq<Call>)
    ensures Failures(calls) == |Filter(calls, RecordsFailure())|
  {
    if calls == [] {
    } else {
      FailuresIs(calls[1..]);
    }
  }

  /** A remembered record that says nothing about failures. */
  predicate Silent(c: Call) {
    c.h.now != 0 && (c.op.Remember? ==> c.op.e.lastAckError.Absent? && c.op.e.errorReportedAt.Absent?)
  }

  /** One call pays for the notice it gives with a failure recorded now or waiting before. */
  lemma StepDueCount(file: File, c: Call)
    requires Silent(c)
    ensures var (next, notice) := Step(file, c);
            DueCount(Entries(next)) + (if notice.Some? then 1 else 0)
            <= DueCount(Entries(file)) + (if c.op.Fail? then 1 else 0)
  {
    match c.op {
      case Remember(e) => RememberDueCount(c.h, file, e);
      case Fail(a) => RememberDueCount(c.h, file, FailureRecord(c.h, file, a));
      case Clear(e) => RememberDueCount(c.h, file, ClearedRecord(c.h, e));
      case Remove(project, sessionId, ticket) => RemoveDueCount(c.h, file, project, sessionId, ticket);
      case Consume(sessionId) => ConsumeDueCount(c.h, file, sessionId);
    }
  }

  /** Over any run from any file, the notices given are at most the failures recorded in the run
      plus those already waiting. */
  lemma {:induction false} NoticesAtMostFailures(file: File, calls: seq<Call>)
    requires forall c :: c in calls ==> Silent(c)
    ensures var (last, notices) := Run(file, calls);
            |notices| + DueCount(Entries(last)) <= Failures(calls) + DueCount(Entries(file))
    decreases calls
  {
    hide Step, DueCount, Silent;
    if calls == [] {
    } else {
      assert calls[0] in calls;
      StepDueCount(file, calls[0]);
      NoticesAtMostFailures(Step(file, calls[0]).0, calls[1..]);
    }
  }
}
