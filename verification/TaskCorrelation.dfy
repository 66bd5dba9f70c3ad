/** Correlating the before- and after-hooks of concurrent Tasks (opencode-plugin/ascendc-pilot.ts):
    one table of pending registrations, indexed by up to three keys per Task. */
module TaskCorrelation {
  import opened Text
  import opened Lists

  datatype Reg = Reg(registrationId: string, nonce: string, actionId: string, parentSession: string, sliceId: string)

  datatype Relation = Relation(parentSession: string, registrationId: string, nonce: string, actionId: string)

  /** A JavaScript Map: its entries in insertion order. */
  type Table = seq<(string, Reg)>

  function Get(t: Table, key: string): Option<Reg> {
    if t == [] then None
    else if t[0].0 == key then Some(t[0].1)
    else Get(t[1..], key)
  }

  function Put(t: Table, key: string, reg: Reg): Table {
    if t == [] then [(key, reg)]
    else if t[0].0 == key then [(key, reg)] + t[1..]
    else [t[0]] + Put(t[1..], key, reg)
  }

  function NotKey(key: string): ((string, Reg)) -> bool {
    (kv: (string, Reg)) => kv.0 != key
  }

  function Delete(t: Table, key: string): Table {
    Filter(t, NotKey(key))
  }

  lemma {:induction false} PutProperties(t: Table, key: string, reg: Reg)
    ensures forall k :: Get(Put(t, key, reg), k) == if k == key then Some(reg) else Get(t, k)
    ensures forall kv :: kv in Put(t, key, reg) ==> kv in t || kv == (key, reg)
  {
    if t != [] && t[0].0 != key {
      PutProperties(t[1..], key, reg);
    }
  }

  lemma {:induction false} DeleteProperties(t: Table, key: string)
    ensures forall k :: Get(Delete(t, key), k) == if k == key then None else Get(t, k)
    ensures forall kv :: kv in Delete(t, key) <==> kv in t && kv.0 != key
  {
    if t == [] {
    } else {
      DeleteProperties(t[1..], key);
    }
  }

  lemma {:induction false} GetIsEntry(t: Table, key: string)
    ensures Get(t, key).Some? ==> (key, Get(t, key).value) in t
    ensures Get(t, key).None? ==> forall kv :: kv in t ==> kv.0 != key
  {
    if t == [] {
    } else {
      GetIsEntry(t[1..], key);
    }
  }

  // ----- the arguments that carry the ids from one hook to the other

  /** The text properties of a Task call's arguments, and of their metadata object. */
  datatype ToolArgs = ToolArgs(fields: map<string, string>, metadata: Option<map<string, string>>)

  datatype Correlation = Correlation(nonce: string, registrationId: string, invocation: string)

  function WithIds(bag: map<string, string>, nonce: string, regId: string, invocation: string, slice: string)
    : map<string, string>
  {
    var both := bag["ascendc_dispatch_nonce" := nonce]["ascendc_registration_id" := regId];
    var three := if invocation != "" then both["ascendc_task_invocation_id" := invocation] else both;
    if slice != "" then three["ascendc_slice_id" := slice] else three
  }

  function Inject(args: ToolArgs, nonce: string, regId: string, invocation: string, slice: string): ToolArgs {
    var bag := if args.metadata.Some? then args.metadata.value else map[];
    ToolArgs(WithIds(args.fields, nonce, regId, invocation, slice), Some(WithIds(bag, nonce, regId, invocation, slice)))
  }

  /** The spread of later properties over earlier ones. */
  function Overlay(args: ToolArgs, later: ToolArgs): ToolArgs {
    ToolArgs(args.fields + later.fields, if later.metadata.Some? then later.metadata else args.metadata)
  }

  function Pick(bag: map<string, string>, key: string): string {
    if key in bag then Trim(JavaScript, bag[key]) else ""
  }

  function FirstOf(a: string, b: string, c: string, d: string): string {
    if a != "" then a else if b != "" then b else if c != "" then c else d
  }

  function PickId(args: ToolArgs, own: string, plain: string): string {
    var meta := if args.metadata.Some? then args.metadata.value else map[];
    FirstOf(Pick(args.fields, own), Pick(meta, own), Pick(args.fields, plain), Pick(meta, plain))
  }

  function Extract(args: ToolArgs): Correlation {
    Correlation(PickId(args, "ascendc_dispatch_nonce", "dispatch_nonce"),
                PickId(args, "ascendc_registration_id", "registration_id"),
                PickId(args, "ascendc_task_invocation_id", "task_invocation_id"))
  }

  /** What the after-hook is given: the injected arguments under the output's and the input's properties. */
  function Seen(args: ToolArgs, nonce: string, regId: string, invocation: string, slice: string,
                output: ToolArgs, input: ToolArgs): ToolArgs
  {
    Overlay(Overlay(Inject(args, nonce, regId, invocation, slice), output), input)
  }

  /** An injected id outlives the output and the input: neither names it, or the last to name it gives the
      same id, or gives a blank while both bring no metadata of their own; after a blank and with metadata,
      the id must stand in one of the other places that are looked at. */
  predicate Survives(args: ToolArgs, output: ToolArgs, input: ToolArgs, own: string, plain: string, id: string) {
    var later := output.fields + input.fields;
    if own !in later then true
    else if Trim(JavaScript, later[own]) != "" then Trim(JavaScript, later[own]) == id
    else if output.metadata.None? && input.metadata.None? then true
    else
      var meta := if input.metadata.Some? then input.metadata.value else output.metadata.value;
      FirstOf(Pick(meta, own), Pick(args.fields + later, plain), Pick(meta, plain), "") == id
  }

  /** Nothing that the after-hook is given names an invocation. */
  predicate NamesNoInvocation(args: ToolArgs, output: ToolArgs, input: ToolArgs) {
    var fields := args.fields + output.fields + input.fields;
    var meta := if input.metadata.Some? then input.metadata.value
                else if output.metadata.Some? then output.metadata.value
                else if args.metadata.Some? then args.metadata.value
                else map[];
    && Pick(fields, "ascendc_task_invocation_id") == "" && Pick(fields, "task_invocation_id") == ""
    && Pick(meta, "ascendc_task_invocation_id") == "" && Pick(meta, "task_invocation_id") == ""
  }

  /** The invocation id is seen as it is: its own, or none when the Task has none. */
  predicate SeesInvocation(args: ToolArgs, output: ToolArgs, input: ToolArgs, invocation: string) {
    if invocation == "" then NamesNoInvocation(args, output, input)
    else Survives(args, output, input, "ascendc_task_invocation_id", "task_invocation_id", invocation)
  }

  /** The bag holds the id, and says the same about the plain property as another. */
  predicate Holds(bag: map<string, string>, other: map<string, string>, own: string, plain: string, id: string) {
    && own in bag && bag[own] == id
    && (plain in bag <==> plain in other) && (plain in other ==> bag[plain] == other[plain])
  }

  /** One injected id under the later properties. */
  lemma IdSurvives(args: ToolArgs, injected: ToolArgs, output: ToolArgs, input: ToolArgs,
                   own: string, plain: string, id: string)
    requires id != "" && Trim(JavaScript, id) == id && own != plain
    requires Holds(injected.fields, args.fields, own, plain, id)
    requires injected.metadata.Some? && own in injected.metadata.value && injected.metadata.value[own] == id
    ensures PickId(Overlay(Overlay(injected, output), input), own, plain) == id
            <==> Survives(args, output, input, own, plain, id)
  {
    hide Trim;
    var later := output.fields + input.fields;
    var all := Overlay(Overlay(injected, output), input);
    assert all.fields == injected.fields + later;
    assert Pick(all.fields, plain) == Pick(args.fields + later, plain);
    assert Pick(all.fields, own) == if own in later then Trim(JavaScript, later[own]) else id;
    hide Pick;
  }

  /** What the injection writes into a bag, and that it writes nothing else. */
  lemma InjectedBag(bag: map<string, string>, nonce: string, regId: string, invocation: string, slice: string)
    ensures var all := WithIds(bag, nonce, regId, invocation, slice);
            && Holds(all, bag, "ascendc_dispatch_nonce", "dispatch_nonce", nonce)
            && Holds(all, bag, "ascendc_registration_id", "registration_id", regId)
            && ("task_invocation_id" in all <==> "task_invocation_id" in bag)
            && ("task_invocation_id" in bag ==> all["task_invocation_id"] == bag["task_invocation_id"])
            && (invocation != "" ==> Holds(all, bag, "ascendc_task_invocation_id", "task_invocation_id", invocation))
            && (invocation == "" ==>
                  && ("ascendc_task_invocation_id" in all <==> "ascendc_task_invocation_id" in bag)
                  && ("ascendc_task_invocation_id" in bag ==>
                        all["ascendc_task_invocation_id"] == bag["ascendc_task_invocation_id"]))
  {
  }

  /** Two bags that agree on a property give the same under later ones. */
  lemma PickUnder(a: map<string, string>, b: map<string, string>, o: map<string, string>, i: map<string, string>, key: string)
    requires key in a <==> key in b
    requires key in a ==> a[key] == b[key]
    ensures Pick(a + o + i, key) == Pick(b + o + i, key) && Pick(a, key) == Pick(b, key)
  {
    hide Trim;
  }

  lemma NoInvocation(args: ToolArgs, nonce: string, regId: string, slice: string, output: ToolArgs, input: ToolArgs)
    ensures var all := Seen(args, nonce, regId, "", slice, output, input);
            PickId(all, "ascendc_task_invocation_id", "task_invocation_id") == ""
            <==> NamesNoInvocation(args, output, input)
  {
    hide Trim, WithIds, Pick, PickId;
    var bag := if args.metadata.Some? then args.metadata.value else map[];
    var fields, meta := WithIds(args.fields, nonce, regId, "", slice), WithIds(bag, nonce, regId, "", slice);
    InjectedBag(args.fields, nonce, regId, "", slice);
    InjectedBag(bag, nonce, regId, "", slice);
    PickUnder(fields, args.fields, output.fields, input.fields, "ascendc_task_invocation_id");
    PickUnder(fields, args.fields, output.fields, input.fields, "task_invocation_id");
    PickUnder(meta, bag, map[], map[], "ascendc_task_invocation_id");
    PickUnder(meta, bag, map[], map[], "task_invocation_id");
    NoneNamed(Seen(args, nonce, regId, "", slice, output, input));
  }

  lemma NoneNamed(all: ToolArgs)
    ensures var meta := if all.metadata.Some? then all.metadata.value else map[];
            PickId(all, "ascendc_task_invocation_id", "task_invocation_id") == ""
            <==> && Pick(all.fields, "ascendc_task_invocation_id") == "" && Pick(all.fields, "task_invocation_id") == ""
                 && Pick(meta, "ascendc_task_invocation_id") == "" && Pick(meta, "task_invocation_id") == ""
  {
    hide Pick;
  }

  /** The after-hook extracts each id that the before-hook injected exactly when the id survives. */
  lemma InjectedIsExtracted(args: ToolArgs, nonce: string, regId: string, invocation: string, slice: string,
                            output: ToolArgs, input: ToolArgs)
    requires nonce != "" && Trimmed(JavaScript, nonce)
    requires regId != "" && Trimmed(JavaScript, regId)
    requires Trimmed(JavaScript, invocation)
    ensures var c := Extract(Seen(args, nonce, regId, invocation, slice, output, input));
            && (c.nonce == nonce
                <==> Survives(args, output, input, "ascendc_dispatch_nonce", "dispatch_nonce", nonce))
            && (c.registrationId == regId
                <==> Survives(args, output, input, "ascendc_registration_id", "registration_id", regId))
            && (c.invocation == invocation <==> SeesInvocation(args, output, input, invocation))
  {
    TrimProperties(JavaScript, nonce);
    TrimProperties(JavaScript, regId);
    TrimProperties(JavaScript, invocation);
    hide Trim, WithIds, PickId, Survives, NamesNoInvocation, Overlay;
    var injected := Inject(args, nonce, regId, invocation, slice);
    var bag := if args.metadata.Some? then args.metadata.value else map[];
    InjectedBag(args.fields, nonce, regId, invocation, slice);
    InjectedBag(bag, nonce, regId, invocation, slice);
    IdSurvives(args, injected, output, input, "ascendc_dispatch_nonce", "dispatch_nonce", nonce);
    IdSurvives(args, injected, output, input, "ascendc_registration_id", "registration_id", regId);
    if invocation != "" {
      IdSurvives(args, injected, output, input, "ascendc_task_invocation_id", "task_invocation_id", invocation);
    } else {
      NoInvocation(args, nonce, regId, slice, output, input);
    }
  }

  /** The injection writes its ids, the slice among them, into the arguments and into their metadata, and leaves every
      other property as it was. */
  lemma InjectionWrites(args: ToolArgs, nonce: string, regId: string, invocation: string, slice: string)
    ensures var out := Inject(args, nonce, regId, invocation, slice);
            && out.metadata.Some?
            && WritesIds(args.fields, out.fields, nonce, regId, invocation, slice)
            && WritesIds(if args.metadata.Some? then args.metadata.value else map[], out.metadata.value,
                         nonce, regId, invocation, slice)
  {
  }

  predicate WritesIds(before: map<string, string>, after: map<string, string>,
                      nonce: string, regId: string, invocation: string, slice: string)
  {
    && "ascendc_dispatch_nonce" in after && after["ascendc_dispatch_nonce"] == nonce
    && "ascendc_registration_id" in after && after["ascendc_registration_id"] == regId
    && (invocation != "" ==> "ascendc_task_invocation_id" in after && after["ascendc_task_invocation_id"] == invocation)
    && (slice != "" ==> "ascendc_slice_id" in after && after["ascendc_slice_id"] == slice)
    && (forall key :: key in after ==>
          || key == "ascendc_dispatch_nonce" || key == "ascendc_registration_id"
          || (key == "ascendc_task_invocation_id" && invocation != "")
          || (key == "ascendc_slice_id" && slice != "")
          || (key in before && after[key] == before[key]))
    && forall key :: key in before ==> key in after
  }

  // ----- the hooks

  /** The table after a before-hook has registered its Task. */
  function Registered(t: Table, invocation: string, reg: Reg): Table {
    var first := if invocation != "" then Put(t, invocation, reg) else t;
    Put(Put(first, reg.nonce, reg), reg.registrationId, reg)
  }

  function ByKeys(t: Table, keys: seq<string>): Option<(string, Reg)> {
    if keys == [] then None
    else if keys[0] != "" && Get(t, keys[0]).Some? then Some((keys[0], Get(t, keys[0]).value))
    else ByKeys(t, keys[1..])
  }

  function ByRegistration(t: Table, id: string): Option<(string, Reg)> {
    if t == [] then None
    else if t[0].1.registrationId == id then Some(t[0])
    else ByRegistration(t[1..], id)
  }

  function ByNonce(t: Table, nonce: string): Option<(string, Reg)> {
    if t == [] then None
    else if t[0].1.nonce == nonce then Some(t[0])
    else ByNonce(t[1..], nonce)
  }

  function Lookup(t: Table, invocation: string, c: Correlation): Option<(string, Reg)> {
    var direct := ByKeys(t, [invocation, c.invocation, c.nonce, c.registrationId]);
    if direct.Some? then direct
    else
      var byReg := if c.registrationId != "" then ByRegistration(t, c.registrationId) else None;
      if byReg.Some? then byReg
      else if c.nonce != "" then ByNonce(t, c.nonce)
      else None
  }

  predicate Leads(t: Table, key: string) {
    key != "" && exists kv :: kv in t && kv.0 == key
  }

  lemma {:induction false} ByKeysIs(t: Table, keys: seq<string>, j: nat)
    requires j < |keys| && Leads(t, keys[j]) && forall i :: 0 <= i < j ==> !Leads(t, keys[i])
    ensures ByKeys(t, keys).Some? && ByKeys(t, keys).value.0 == keys[j] && ByKeys(t, keys).value in t
  {
    GetIsEntry(t, keys[0]);
    if j > 0 {
      ByKeysIs(t, keys[1..], j - 1);
    }
  }

  lemma {:induction false} NoKeyLeads(t: Table, keys: seq<string>)
    requires forall i :: 0 <= i < |keys| ==> !Leads(t, keys[i])
    ensures ByKeys(t, keys).None?
  {
    if keys != [] {
      GetIsEntry(t, keys[0]);
      NoKeyLeads(t, keys[1..]);
    }
  }

  lemma {:induction false} ScansFind(t: Table, id: string)
    ensures ByRegistration(t, id).Some? <==> exists kv :: kv in t && kv.1.registrationId == id
    ensures ByRegistration(t, id).Some? ==> ByRegistration(t, id).value in t && ByRegistration(t, id).value.1.registrationId == id
    ensures ByNonce(t, id).Some? <==> exists kv :: kv in t && kv.1.nonce == id
    ensures ByNonce(t, id).Some? ==> ByNonce(t, id).value in t && ByNonce(t, id).value.1.nonce == id
  {
    if t != [] {
      ScansFind(t[1..], id);
      assert t == [t[0]] + t[1..];
    }
  }

  /** Which entry is found: that of the first key that leads anywhere; without one, an entry of the registration id;
      without one, an entry of the nonce; and nothing exactly when there is none of these. */
  lemma LookupIs(t: Table, invocation: string, c: Correlation)
    ensures var keys := [invocation, c.invocation, c.nonce, c.registrationId];
            var hit := Lookup(t, invocation, c);
            var none := forall i :: 0 <= i < 4 ==> !Leads(t, keys[i]);
            var registered := c.registrationId != "" && exists kv :: kv in t && kv.1.registrationId == c.registrationId;
            var issued := c.nonce != "" && exists kv :: kv in t && kv.1.nonce == c.nonce;
            && (hit.Some? ==> hit.value in t)
            && (forall j :: 0 <= j < 4 && Leads(t, keys[j]) && (forall i :: 0 <= i < j ==> !Leads(t, keys[i])) ==>
                  hit.Some? && hit.value.0 == keys[j])
            && (none && registered ==> hit.Some? && hit.value.1.registrationId == c.registrationId)
            && (none && !registered && issued ==> hit.Some? && hit.value.1.nonce == c.nonce)
            && (hit.None? <==> none && !registered && !issued)
  {
    var keys := [invocation, c.invocation, c.nonce, c.registrationId];
    ScansFind(t, c.registrationId);
    ScansFind(t, c.nonce);
    if forall i :: 0 <= i < 4 ==> !Leads(t, keys[i]) {
      NoKeyLeads(t, keys);
    } else {
      FirstThatLeads(t, keys);
    }
    forall j | 0 <= j < 4 && Leads(t, keys[j]) && (forall i :: 0 <= i < j ==> !Leads(t, keys[i]))
      ensures ByKeys(t, keys).Some? && ByKeys(t, keys).value.0 == keys[j]
    {
      ByKeysIs(t, keys, j);
    }
    hide Leads, ByKeys, ByRegistration, ByNonce;
  }

  lemma {:induction false} FirstThatLeads(t: Table, keys: seq<string>)
    requires exists i :: 0 <= i < |keys| && Leads(t, keys[i])
    ensures ByKeys(t, keys).Some? && ByKeys(t, keys).value in t
  {
    GetIsEntry(t, keys[0]);
    if !Leads(t, keys[0]) {
      FirstThatLeads(t, keys[1..]);
    }
  }

  function DeleteNamed(t: Table, key: string): Table {
    if key != "" then Delete(t, key) else t
  }

  /** The table after an after-hook that found `hit`. */
  function Released(t: Table, hit: (string, Reg), invocation: string, c: Correlation, child: string): Table {
    var three := DeleteNamed(DeleteNamed(Delete(t, hit.0), hit.1.nonce), hit.1.registrationId);
    if child == "" then three
    else DeleteNamed(DeleteNamed(three, invocation), c.invocation)
  }

  function AfterTable(t: Table, invocation: string, c: Correlation, child: string): Table {
    var hit := Lookup(t, invocation, c);
    if hit.None? then t else Released(t, hit.value, invocation, c, child)
  }

  function RelationOf(reg: Reg, parentSession: string, actionId: string): Relation {
    Relation(if reg.parentSession != "" then reg.parentSession else parentSession,
             reg.registrationId, reg.nonce,
             if reg.actionId != "" then reg.actionId else actionId)
  }

  function AfterChildren(children: map<string, Relation>, t: Table, invocation: string, c: Correlation,
                         child: string, parentSession: string, actionId: string): map<string, Relation> {
    var hit := Lookup(t, invocation, c);
    if hit.None? || child == "" then children
    else children[child := RelationOf(hit.value.1, parentSession, actionId)]
  }

  /** The module-level maps of the plug-in and the Task parts of its two hooks. */
  class TaskHooks {
    var pending: Table
    var children: map<string, Relation>

    constructor ()
      ensures pending == [] && children == map[]
    {
      pending, children := [], map[];
    }

    /** The before-hook, given the registration the control plane answered with. */
    method Before(args: ToolArgs, hostSession: string, invocation: string, reg: Reg) returns (injected: ToolArgs)
      modifies this
      ensures children == old(children)
      ensures hostSession == "" || reg.registrationId == "" ==> pending == old(pending) && injected == args
      ensures hostSession != "" && reg.registrationId != "" ==>
                && pending == Registered(old(pending), invocation, reg)
                && injected == Inject(args, reg.nonce, reg.registrationId, invocation, reg.sliceId)
    {
      injected := args;
      if hostSession != "" && reg.registrationId != "" {
        if invocation != "" {
          pending := Put(pending, invocation, reg);
        }
        pending := Put(pending, reg.nonce, reg);
        pending := Put(pending, reg.registrationId, reg);
        injected := Inject(args, reg.nonce, reg.registrationId, invocation, reg.sliceId);
      }
    }

    method Find(invocation: string, c: Correlation) returns (hit: Option<(string, Reg)>)
      ensures hit == Lookup(pending, invocation, c)
    {
      var keys := [invocation, c.invocation, c.nonce, c.registrationId];
      for i := 0 to |keys|
        invariant ByKeys(pending, keys) == ByKeys(pending, keys[i..])
      {
        if keys[i] != "" && Get(pending, keys[i]).Some? {
          return Some((keys[i], Get(pending, keys[i]).value));
        }
      }
      if c.registrationId != "" {
        for i := 0 to |pending|
          invariant ByRegistration(pending, c.registrationId) == ByRegistration(pending[i..], c.registrationId)
        {
          if pending[i].1.registrationId == c.registrationId {
            return Some(pending[i]);
          }
        }
      }
      if c.nonce != "" {
        for i := 0 to |pending|
          invariant ByNonce(pending, c.nonce) == ByNonce(pending[i..], c.nonce)
        {
          if pending[i].1.nonce == c.nonce {
            return Some(pending[i]);
          }
        }
      }
      hit := None;
    }

    /** The after-hook, given the child session id it could extract. */
    method After(invocation: string, args: ToolArgs, child: string, parentSession: string, actionId: string)
      returns (hit: Option<(string, Reg)>)
      modifies this
      ensures hit == Lookup(old(pending), invocation, Extract(args))
      ensures pending == AfterTable(old(pending), invocation, Extract(args), child)
      ensures children
           == AfterChildren(old(children), old(pending), invocation, Extract(args), child, parentSession, actionId)
    {
      var c := Extract(args);
      hit := Find(invocation, c);
      if hit.None? {
        return;
      }
      if child != "" {
        children := children[child := RelationOf(hit.value.1, parentSession, actionId)];
      }
      pending := Delete(pending, hit.value.0);
      if hit.value.1.nonce != "" {
        pending := Delete(pending, hit.value.1.nonce);
      }
      if hit.value.1.registrationId != "" {
        pending := Delete(pending, hit.value.1.registrationId);
      }
      if child != "" && invocation != "" {
        pending := Delete(pending, invocation);
      }
      if child != "" && c.invocation != "" {
        pending := Delete(pending, c.invocation);
      }
    }
  }

  // ----- concurrent Tasks

  /** One Task call: its invocation id, empty when the host gives none, and its registration. */
  datatype Task = Task(invocation: string, reg: Reg)

  function Ids(task: Task): set<string> {
    {task.reg.nonce, task.reg.registrationId} + (if task.invocation != "" then {task.invocation} else {})
  }

  /** Every Task has ids of its own. */
  ghost predicate FreshIds(tasks: seq<Task>) {
    && (forall i :: 0 <= i < |tasks| ==> tasks[i].reg.nonce != "" && tasks[i].reg.registrationId != "")
    && (forall i, j :: 0 <= i < |tasks| && 0 <= j < |tasks| && i != j ==> Ids(tasks[i]) !! Ids(tasks[j]))
  }

  datatype Event =
    | Start(i: nat)
    | Finish(i: nat, invocation: string, c: Correlation, child: string, parentSession: string, actionId: string)

  /** The ids an after-hook sees are missing or its own, and it sees at least one. */
  predicate CarriesOwn(task: Task, invocation: string, c: Correlation) {
    && (invocation == "" || invocation == task.invocation)
    && (c.invocation == "" || c.invocation == task.invocation)
    && (c.nonce == "" || c.nonce == task.reg.nonce)
    && (c.registrationId == "" || c.registrationId == task.reg.registrationId)
    && (invocation != "" || c.invocation != "" || c.nonce != "" || c.registrationId != "")
  }

  predicate OfTask(tasks: seq<Task>, ev: Event) {
    ev.i < |tasks| && (ev.Finish? ==> CarriesOwn(tasks[ev.i], ev.invocation, ev.c))
  }

  predicate WellFormed(tasks: seq<Task>, run: seq<Event>) {
    forall k :: 0 <= k < |run| ==> OfTask(tasks, run[k])
  }

  function Next(t: Table, tasks: seq<Task>, ev: Event): Table
    requires ev.i < |tasks|
  {
    match ev
    case Start(i) => Registered(t, tasks[i].invocation, tasks[i].reg)
    case Finish(_, invocation, c, child, _, _) => AfterTable(t, invocation, c, child)
  }

  /** The table after a run of hooks, in whatever order they came. */
  function TableAfter(tasks: seq<Task>, run: seq<Event>): Table
    requires WellFormed(tasks, run)
  {
    if run == [] then []
    else Next(TableAfter(tasks, run[..|run| - 1]), tasks, run[|run| - 1])
  }

  /** The Tasks that have started and not finished since. */
  function Open(run: seq<Event>): set<nat> {
    if run == [] then {}
    else
      var before := Open(run[..|run| - 1]);
      match run[|run| - 1]
      case Start(i) => before + {i}
      case Finish(i, _, _, _, _, _) => before - {i}
  }

  /** Every key belongs to the Task it leads to, and an open Task has all its keys. */
  ghost predicate Correlated(t: Table, tasks: seq<Task>, open: set<nat>) {
    && (forall kv :: kv in t ==> exists i :: 0 <= i < |tasks| && kv.1 == tasks[i].reg && kv.0 in Ids(tasks[i]))
    && (forall i, k :: i in open && i < |tasks| && k in Ids(tasks[i]) ==> Get(t, k) == Some(tasks[i].reg))
  }

  lemma EntryOfId(t: Table, tasks: seq<Task>, open: set<nat>, i: nat, kv: (string, Reg))
    requires FreshIds(tasks) && Correlated(t, tasks, open) && i < |tasks|
    requires kv in t
    requires kv.0 in Ids(tasks[i]) || kv.1.registrationId in Ids(tasks[i]) || kv.1.nonce in Ids(tasks[i])
    ensures kv.1 == tasks[i].reg && kv.0 in Ids(tasks[i])
  {
    var j :| 0 <= j < |tasks| && kv.1 == tasks[j].reg && kv.0 in Ids(tasks[j]);
    assert kv.1.nonce in Ids(tasks[j]) && kv.1.registrationId in Ids(tasks[j]);
    if j != i {
      assert false;
    }
  }

  lemma {:induction false} ByKeysOwn(t: Table, keys: seq<string>)
    ensures var hit := ByKeys(t, keys);
            && (hit.Some? ==> hit.value in t && hit.value.0 in keys && hit.value.0 != "")
            && (hit.None? <==> forall k :: k in keys && k != "" ==> Get(t, k).None?)
  {
    if keys == [] {
    } else {
      GetIsEntry(t, keys[0]);
      ByKeysOwn(t, keys[1..]);
      assert keys == [keys[0]] + keys[1..];
    }
  }

  lemma {:induction false} ScansAreEntries(t: Table, id: string)
    ensures ByRegistration(t, id).Some? ==> ByRegistration(t, id).value in t
                                            && ByRegistration(t, id).value.1.registrationId == id
    ensures ByNonce(t, id).Some? ==> ByNonce(t, id).value in t && ByNonce(t, id).value.1.nonce == id
  {
    if t == [] {
    } else {
      ScansAreEntries(t[1..], id);
    }
  }

  /** An after-hook with its own ids finds its own registration or nothing; while its Task is open
      it finds it. */
  lemma LookupIsOwn(t: Table, tasks: seq<Task>, open: set<nat>, i: nat, invocation: string, c: Correlation)
    requires FreshIds(tasks) && Correlated(t, tasks, open) && i < |tasks|
    requires CarriesOwn(tasks[i], invocation, c)
    ensures var hit := Lookup(t, invocation, c);
            && (hit.Some? ==> hit.value.1 == tasks[i].reg && hit.value.0 in Ids(tasks[i]))
            && (i in open ==> hit.Some?)
            && (i in open && tasks[i].invocation != "" && (invocation != "" || c.invocation != "") ==>
                  hit.value.0 == tasks[i].invocation)
  {
    var keys := [invocation, c.invocation, c.nonce, c.registrationId];
    ByKeysOwn(t, keys);
    ScansAreEntries(t, c.registrationId);
    ScansAreEntries(t, c.nonce);
    var hit := Lookup(t, invocation, c);
    if hit.Some? {
      EntryOfId(t, tasks, open, i, hit.value);
    }
    if i in open {
      var k := FirstOf(invocation, c.invocation, c.nonce, c.registrationId);
      assert k in keys && k in Ids(tasks[i]);
      assert Get(t, k) == Some(tasks[i].reg);
      if tasks[i].invocation != "" && (invocation != "" || c.invocation != "") {
        assert ByKeys(t, keys) == if invocation != "" then Some((invocation, tasks[i].reg)) else ByKeys(t, keys[1..]);
        assert keys[1..][0] == c.invocation;
      }
    }
  }

  lemma DeleteNamedProperties(t: Table, key: string)
    ensures forall k :: Get(DeleteNamed(t, key), k) == if k == key && key != "" then None else Get(t, k)
    ensures forall kv :: kv in DeleteNamed(t, key) <==> kv in t && (key == "" || kv.0 != key)
  {
    DeleteProperties(t, key);
  }

  /** The keys an after-hook deletes. */
  function DeletedKeys(hit: (string, Reg), invocation: string, c: Correlation, child: string): set<string> {
    {hit.0, hit.1.nonce, hit.1.registrationId} + (if child == "" then {} else {invocation, c.invocation} - {""})
  }

  lemma ReleasedProperties(t: Table, hit: (string, Reg), invocation: string, c: Correlation, child: string)
    requires hit.1.nonce != "" && hit.1.registrationId != ""
    ensures var after := Released(t, hit, invocation, c, child);
            var gone := DeletedKeys(hit, invocation, c, child);
            && (forall k :: Get(after, k) == if k in gone then None else Get(t, k))
            && (forall kv :: kv in after <==> kv in t && kv.0 !in gone)
  {
    var one := Delete(t, hit.0);
    DeleteProperties(t, hit.0);
    var two := DeleteNamed(one, hit.1.nonce);
    DeleteNamedProperties(one, hit.1.nonce);
    var three := DeleteNamed(two, hit.1.registrationId);
    DeleteNamedProperties(two, hit.1.registrationId);
    var four := DeleteNamed(three, invocation);
    DeleteNamedProperties(three, invocation);
    DeleteNamedProperties(four, c.invocation);
    hide Get, Delete, DeleteNamed, NotKey;
  }

  lemma RegisteredProperties(t: Table, invocation: string, reg: Reg)
    ensures var after := Registered(t, invocation, reg);
            var keys := Ids(Task(invocation, reg));
            && (forall k :: Get(after, k) == if k in keys then Some(reg) else Get(t, k))
            && (forall kv :: kv in after ==> kv in t || (kv.1 == reg && kv.0 in keys))
  {
    var first := if invocation != "" then Put(t, invocation, reg) else t;
    PutProperties(t, invocation, reg);
    PutProperties(first, reg.nonce, reg);
    PutProperties(Put(first, reg.nonce, reg), reg.registrationId, reg);
    hide Get, Put;
  }

  lemma StartKeepsCorrelated(t: Table, tasks: seq<Task>, open: set<nat>, i: nat)
    requires FreshIds(tasks) && Correlated(t, tasks, open) && i < |tasks|
    ensures Correlated(Registered(t, tasks[i].invocation, tasks[i].reg), tasks, open + {i})
  {
    var after := Registered(t, tasks[i].invocation, tasks[i].reg);
    RegisteredProperties(t, tasks[i].invocation, tasks[i].reg);
    assert Task(tasks[i].invocation, tasks[i].reg) == tasks[i];
    hide Get, Registered, Ids;
    forall j, k | j in open + {i} && j < |tasks| && k in Ids(tasks[j])
      ensures Get(after, k) == Some(tasks[j].reg)
    {
      if j != i {
        assert Ids(tasks[i]) !! Ids(tasks[j]);
      }
    }
  }

  lemma FinishKeepsCorrelated(t: Table, tasks: seq<Task>, open: set<nat>, i: nat,
                              invocation: string, c: Correlation, child: string)
    requires FreshIds(tasks) && Correlated(t, tasks, open) && i < |tasks|
    requires CarriesOwn(tasks[i], invocation, c)
    ensures Correlated(AfterTable(t, invocation, c, child), tasks, open - {i})
    ensures forall k :: k !in Ids(tasks[i]) ==> Get(AfterTable(t, invocation, c, child), k) == Get(t, k)
  {
    LookupIsOwn(t, tasks, open, i, invocation, c);
    var hit := Lookup(t, invocation, c);
    if hit.Some? {
      ReleasedProperties(t, hit.value, invocation, c, child);
      assert DeletedKeys(hit.value, invocation, c, child) <= Ids(tasks[i]);
      hide Get, Lookup, Released, DeletedKeys, Ids;
      var after := AfterTable(t, invocation, c, child);
      forall j, k | j in open - {i} && j < |tasks| && k in Ids(tasks[j])
        ensures Get(after, k) == Some(tasks[j].reg)
      {
        assert Ids(tasks[i]) !! Ids(tasks[j]);
      }
    }
  }

  /** In every interleaving the table correlates exactly. */
  lemma {:induction false} RunIsCorrelated(tasks: seq<Task>, run: seq<Event>)
    requires FreshIds(tasks) && WellFormed(tasks, run)
    ensures Correlated(TableAfter(tasks, run), tasks, Open(run))
  {
    if run == [] {
    } else {
      var last := |run| - 1;
      RunIsCorrelated(tasks, run[..last]);
      var t := TableAfter(tasks, run[..last]);
      match run[last]
      case Start(i) => StartKeepsCorrelated(t, tasks, Open(run[..last]), i);
      case Finish(i, invocation, c, child, _, _) =>
        FinishKeepsCorrelated(t, tasks, Open(run[..last]), i, invocation, c, child);
    }
  }

  /** Whatever hooks came before, an after-hook that carries any of its own ids never binds to another
      Task, and finds its own registration if its before-hook has run and no after-hook since; the
      child session it reports is then related to exactly that registration. */
  lemma ExactCorrelation(tasks: seq<Task>, run: seq<Event>, ev: Event, children: map<string, Relation>)
    requires FreshIds(tasks) && WellFormed(tasks, run) && OfTask(tasks, ev) && ev.Finish?
    ensures var hit := Lookup(TableAfter(tasks, run), ev.invocation, ev.c);
            && (hit.Some? ==> hit.value.1 == tasks[ev.i].reg)
            && (ev.i in Open(run) ==> hit.Some?)
            && (ev.i in Open(run) && ev.child != "" ==>
                  var after := AfterChildren(children, TableAfter(tasks, run), ev.invocation, ev.c,
                                             ev.child, ev.parentSession, ev.actionId);
                  ev.child in after
                  && after[ev.child].registrationId == tasks[ev.i].reg.registrationId
                  && after[ev.child].nonce == tasks[ev.i].reg.nonce
                  && after[ev.child].parentSession
                     == (if tasks[ev.i].reg.parentSession != "" then tasks[ev.i].reg.parentSession else ev.parentSession)
                  && after[ev.child].actionId
                     == (if tasks[ev.i].reg.actionId != "" then tasks[ev.i].reg.actionId else ev.actionId)
                  && after.Keys == children.Keys + {ev.child}
                  && forall other :: other in children && other != ev.child ==> after[other] == children[other])
            && (hit.None? || ev.child == "" ==>
                  AfterChildren(children, TableAfter(tasks, run), ev.invocation, ev.c,
                                ev.child, ev.parentSession, ev.actionId) == children)
  {
    RunIsCorrelated(tasks, run);
    LookupIsOwn(TableAfter(tasks, run), tasks, Open(run), ev.i, ev.invocation, ev.c);
  }

  /** When the after-hook of an open Task has run, no key leads to its registration any more exactly
      if the Task had no invocation id or the hook could see it; every other Task's keys are untouched.
      This holds with a child session and without one. */
  lemma FullRemovalIff(tasks: seq<Task>, run: seq<Event>, ev: Event)
    requires FreshIds(tasks) && WellFormed(tasks, run) && OfTask(tasks, ev) && ev.Finish?
    requires ev.i in Open(run)
    ensures var t := TableAfter(tasks, run);
            var after := AfterTable(t, ev.invocation, ev.c, ev.child);
            && ((forall kv :: kv in after ==> kv.1 != tasks[ev.i].reg)
                <==> tasks[ev.i].invocation == "" || ev.invocation != "" || ev.c.invocation != ""
                     || tasks[ev.i].invocation in {tasks[ev.i].reg.nonce, tasks[ev.i].reg.registrationId})
            && (forall k :: k !in Ids(tasks[ev.i]) ==> Get(after, k) == Get(t, k))
  {
    var task := tasks[ev.i];
    var t := TableAfter(tasks, run);
    RunIsCorrelated(tasks, run);
    LookupIsOwn(t, tasks, Open(run), ev.i, ev.invocation, ev.c);
    FinishKeepsCorrelated(t, tasks, Open(run), ev.i, ev.invocation, ev.c, ev.child);
    var hit := Lookup(t, ev.invocation, ev.c).value;
    ReleasedProperties(t, hit, ev.invocation, ev.c, ev.child);
    var after := AfterTable(t, ev.invocation, ev.c, ev.child);
    var gone := DeletedKeys(hit, ev.invocation, ev.c, ev.child);
    var visible := ev.invocation != "" || ev.c.invocation != "";
    if task.invocation == "" || visible || task.invocation in {task.reg.nonce, task.reg.registrationId} {
      assert Ids(task) <= gone;
      forall kv | kv in after ensures kv.1 != task.reg {
        if kv.1 == task.reg {
          EntryOfId(t, tasks, Open(run), ev.i, kv);
        }
      }
    } else {
      LeftoverKey(t, task, ev.invocation, ev.c);
      assert Get(t, task.invocation) == Some(task.reg);
      GetIsEntry(t, task.invocation);
      assert (task.invocation, task.reg) in after;
    }
  }

  /** Without a visible invocation id the hit comes through the nonce or the registration id. */
  lemma LeftoverKey(t: Table, task: Task, invocation: string, c: Correlation)
    requires CarriesOwn(task, invocation, c) && invocation == "" && c.invocation == ""
    requires Get(t, task.reg.nonce).Some? && Get(t, task.reg.registrationId).Some?
    requires task.reg.nonce != "" && task.reg.registrationId != ""
    ensures Lookup(t, invocation, c).Some?
    ensures Lookup(t, invocation, c).value.0 in {task.reg.nonce, task.reg.registrationId}
  {
    ByKeysOwn(t, [invocation, c.invocation, c.nonce, c.registrationId]);
  }

  // ----- from the hooks themselves

  /** A hook of a Task: with `seen` the invocation id the host gives the after-hook, the Task's arguments
      before the injection, and what the output and the input add. */
  datatype Hook =
    | BeforeHook(i: nat)
    | AfterHook(i: nat, seen: string, args: ToolArgs, output: ToolArgs, input: ToolArgs,
                child: string, parentSession: string, actionId: string)

  function EventOf(tasks: seq<Task>, hook: Hook): Event
    requires hook.i < |tasks|
  {
    match hook
    case BeforeHook(i) => Start(i)
    case AfterHook(i, seen, args, output, input, child, parentSession, actionId) =>
      var reg := tasks[i].reg;
      Finish(i, seen, Extract(Seen(args, reg.nonce, reg.registrationId, tasks[i].invocation, reg.sliceId, output, input)),
             child, parentSession, actionId)
  }

  /** The ids of every Task are trimmed, as the control plane and the host give them. */
  predicate TrimmedIds(tasks: seq<Task>) {
    forall i :: 0 <= i < |tasks| ==>
      && Trimmed(JavaScript, tasks[i].reg.nonce) && Trimmed(JavaScript, tasks[i].reg.registrationId)
      && Trimmed(JavaScript, tasks[i].invocation)
  }

  /** The host gives the Task's own invocation id or none, and the injected ids survive. */
  predicate Undisturbed(tasks: seq<Task>, hook: Hook) {
    && hook.i < |tasks|
    && (hook.AfterHook? ==>
          var task := tasks[hook.i];
          && (hook.seen == "" || hook.seen == task.invocation)
          && Survives(hook.args, hook.output, hook.input, "ascendc_dispatch_nonce", "dispatch_nonce", task.reg.nonce)
          && Survives(hook.args, hook.output, hook.input, "ascendc_registration_id", "registration_id",
                      task.reg.registrationId)
          && SeesInvocation(hook.args, hook.output, hook.input, task.invocation))
  }

  lemma UndisturbedCarriesOwn(tasks: seq<Task>, hook: Hook)
    requires FreshIds(tasks) && TrimmedIds(tasks) && Undisturbed(tasks, hook)
    ensures OfTask(tasks, EventOf(tasks, hook))
  {
    if hook.AfterHook? {
      var task := tasks[hook.i];
      InjectedIsExtracted(hook.args, task.reg.nonce, task.reg.registrationId, task.invocation, task.reg.sliceId,
                          hook.output, hook.input);
      hide Extract, Seen, Survives, SeesInvocation, Trimmed;
    }
  }

  function EventsOf(tasks: seq<Task>, hooks: seq<Hook>): (run: seq<Event>)
    requires forall k :: 0 <= k < |hooks| ==> hooks[k].i < |tasks|
    ensures |run| == |hooks| && forall k :: 0 <= k < |hooks| ==> run[k] == EventOf(tasks, hooks[k])
  {
    seq(|hooks|, k requires 0 <= k < |hooks| => EventOf(tasks, hooks[k]))
  }

  /** From the injected arguments to the bound child session: in every interleaving of undisturbed hooks, the
      after-hook of an open Task finds the registration of its own before-hook and relates the child session
      it reports to exactly that registration. */
  lemma HooksCorrelate(tasks: seq<Task>, hooks: seq<Hook>, last: Hook, children: map<string, Relation>)
    requires FreshIds(tasks) && TrimmedIds(tasks)
    requires forall k :: 0 <= k < |hooks| ==> hooks[k].i < |tasks| && Undisturbed(tasks, hooks[k])
    requires Undisturbed(tasks, last) && last.AfterHook? && last.i in Open(EventsOf(tasks, hooks))
    ensures var run, ev := EventsOf(tasks, hooks), EventOf(tasks, last);
            && WellFormed(tasks, run)
            && var t := TableAfter(tasks, run);
               var hit := Lookup(t, last.seen, ev.c);
               && hit.Some? && hit.value.1 == tasks[last.i].reg
               && (last.child != "" ==>
                     var after := AfterChildren(children, t, last.seen, ev.c, last.child, last.parentSession, last.actionId);
                     && last.child in after
                     && after[last.child].registrationId == tasks[last.i].reg.registrationId
                     && after[last.child].nonce == tasks[last.i].reg.nonce
                     && after[last.child].parentSession
                        == (if tasks[last.i].reg.parentSession != "" then tasks[last.i].reg.parentSession
                            else last.parentSession)
                     && after[last.child].actionId
                        == (if tasks[last.i].reg.actionId != "" then tasks[last.i].reg.actionId else last.actionId))
  {
    var run := EventsOf(tasks, hooks);
    forall k | 0 <= k < |run| ensures OfTask(tasks, run[k]) {
      UndisturbedCarriesOwn(tasks, hooks[k]);
    }
    UndisturbedCarriesOwn(tasks, last);
    hide Lookup, AfterChildren, TableAfter, Open, Extract, Seen, Undisturbed, FreshIds;
    ExactCorrelation(tasks, run, EventOf(tasks, last), children);
  }

  /** A Task without an invocation id whose after-hook is given one: it still finds its own registration
      exactly when that name is its own nonce or registration id, or leads nowhere at that moment. A name that
      another open Task goes by leads to that Task's registration. */
  lemma NamedInvocationIff(tasks: seq<Task>, run: seq<Event>, i: nat, c: Correlation)
    requires FreshIds(tasks) && WellFormed(tasks, run) && i in Open(run) && i < |tasks| && tasks[i].invocation == ""
    requires c.nonce == tasks[i].reg.nonce && c.registrationId == tasks[i].reg.registrationId
    ensures var t := TableAfter(tasks, run);
            var hit := Lookup(t, "", c);
            && hit.Some?
            && (hit.value.1 == tasks[i].reg
                <==> c.invocation == "" || c.invocation in Ids(tasks[i]) || Get(t, c.invocation).None?)
            && forall j :: j in Open(run) && j < |tasks| && c.invocation != "" && c.invocation in Ids(tasks[j]) ==>
                 hit.value.1 == tasks[j].reg
  {
    var t := TableAfter(tasks, run);
    RunIsCorrelated(tasks, run);
    LookupUnnamed(t, c);
    GetIsEntry(t, c.invocation);
    assert c.nonce in Ids(tasks[i]);
    assert Get(t, c.nonce) == Some(tasks[i].reg);
    hide Lookup, Get, TableAfter, Open;
    if c.invocation != "" && Get(t, c.invocation).Some? {
      var kv := (c.invocation, Get(t, c.invocation).value);
      if kv.1 == tasks[i].reg {
        EntryOfId(t, tasks, Open(run), i, kv);
      }
    }
  }

  lemma LookupUnnamed(t: Table, c: Correlation)
    requires c.nonce != "" && Get(t, c.nonce).Some?
    ensures Lookup(t, "", c)
         == if c.invocation != "" && Get(t, c.invocation).Some? then Some((c.invocation, Get(t, c.invocation).value))
            else Some((c.nonce, Get(t, c.nonce).value))
  {
    var keys := ["", c.invocation, c.nonce, c.registrationId];
    assert keys[1..] == [c.invocation, c.nonce, c.registrationId];
    assert keys[1..][1..] == [c.nonce, c.registrationId];
    assert ByKeys(t, keys) == ByKeys(t, keys[1..]);
  }
}
