/** Reconciling the triggers of one agent with the ones its project declares. */
module Triggers {
  import opened Fleet

  /** What the project loader guarantees about the declared triggers. */
  ghost predicate Loaded(decl: seq<TriggerSpec>) {
    && (forall i | 0 <= i < |decl| :: decl[i].name != "" && decl[i].timezone != "")
    && (forall i, j | 0 <= i < j < |decl| :: decl[i].name != decl[j].name)
  }

  predicate Declares(decl: seq<TriggerSpec>, name: string) {
    exists i | 0 <= i < |decl| :: decl[i].name == name
  }

  /** No two managed identifiers carry the same name. */
  ghost predicate Injective(managed: map<Id, string>) {
    forall i, j | i in managed && j in managed && managed[i] == managed[j] :: i == j
  }

  predicate NeedsRecreate(stored: TriggerSpec, desired: TriggerSpec) {
    || stored.kind != desired.kind
    || (desired.schedule == "" && stored.schedule != "")
    || (desired.timezone == "" && stored.timezone != "")
    || (desired.source == "" && stored.source != "")
    || (desired.event == "" && stored.event != "")
    || (desired.input == "" && stored.input != "")
  }

  /** A trigger is recreated exactly when the service's own reading of an update (empty
      fields keep the stored value) would miss the desired value; otherwise the reading in
      which empty fields clear the stored value reaches it as well. */
  lemma RecreateExactlyWhenUpdateMisses(stored: TriggerSpec, desired: TriggerSpec)
    requires desired.name != ""
    ensures NeedsRecreate(stored, desired) <==> KeepUpdate(stored, desired) != desired
    ensures !NeedsRecreate(stored, desired) ==> ClearUpdate(stored, desired) == desired
  {
    if !NeedsRecreate(stored, desired) {
      assert KeepUpdate(stored, desired).input == desired.input;
    }
  }

  /** The managed trigger `id` is the one and only trigger named `t.name`, and it is as
      declared. */
  ghost predicate Serves(actual: map<Id, TriggerSpec>, managed: map<Id, string>, id: Id, t: TriggerSpec) {
    && id in actual && actual[id] == t
    && id in managed && managed[id] == t.name
    && (forall other | other in actual && actual[other].name == t.name :: other == id)
  }

  ghost predicate Served(actual: map<Id, TriggerSpec>, managed: map<Id, string>, t: TriggerSpec) {
    exists id :: Serves(actual, managed, id, t)
  }

  /** Every declared trigger exists exactly once, under its recorded identifier, and no
      recorded identifier has lost its declaration. */
  ghost predicate TriggersMatch(actual: map<Id, TriggerSpec>, decl: seq<TriggerSpec>, managed: map<Id, string>) {
    && (forall i | 0 <= i < |decl| :: Served(actual, managed, decl[i]))
    && (forall id | id in managed :: Declares(decl, managed[id]))
  }

  lemma NotServed(actual: map<Id, TriggerSpec>, managed: map<Id, string>, id: Id, byName: set<Id>, t: TriggerSpec)
    requires id in managed && managed[id] == t.name
    requires byName == set other | other in actual && actual[other].name == t.name
    requires id !in actual || byName != {id} || actual[id] != t
    ensures Injective(managed) ==> !Served(actual, managed, t)
  {
    if Injective(managed) && id in actual && actual[id] == t {
      assert id in byName;
      var other :| other in byName && other != id;
    }
  }

  /** The recorded identifier of a name is looked up by scanning a map, so that any of
      several candidates may be found. */
  method DeclaredTriggersMatch(actual: map<Id, TriggerSpec>, decl: seq<TriggerSpec>, managed: map<Id, string>)
    returns (ok: bool)
    requires 0 !in managed
    ensures ok ==> TriggersMatch(actual, decl, managed)
    ensures Injective(managed) ==> (ok <==> TriggersMatch(actual, decl, managed))
  {
    for i := 0 to |decl|
      invariant forall k | 0 <= k < i :: Served(actual, managed, decl[k])
    {
      var recorded := set id | id in managed && managed[id] == decl[i].name;
      var byName := set id | id in actual && actual[id].name == decl[i].name;
      if recorded == {} {
        assert !Served(actual, managed, decl[i]) by {
          assert forall id | id in managed && managed[id] == decl[i].name :: id in recorded;
        }
        return false;
      }
      var id :| id in recorded;
      if id !in actual || byName != {id} || actual[id] != decl[i] {
        NotServed(actual, managed, id, byName, decl[i]);
        return false;
      }
      assert forall other | other in actual && actual[other].name == decl[i].name :: other in byName;
      assert Serves(actual, managed, id, decl[i]);
    }
    ok := forall id | id in managed :: Declares(decl, managed[id]);
  }

  // ----- What a synchronisation may change

  /** Nothing but the triggers of `agent` differs. */
  ghost predicate OnlyTriggers(before: World, after: World, agent: Id) {
    && agent in before.agents && agent in after.agents
    && after.agents == before.agents[agent := before.agents[agent].(triggers := after.agents[agent].triggers)]
    && before.nextId <= after.nextId && after.defaults == before.defaults
  }

  /** Triggers whose identifier is not recorded as managed are exactly as they were. */
  ghost predicate ForeignKept(before: map<Id, TriggerSpec>, after: map<Id, TriggerSpec>, prev: map<Id, string>) {
    forall id | id in before && id !in prev :: id in after && after[id] == before[id]
  }

  /** An update was sent only where it reached the desired value. */
  ghost predicate UpdateReached(s: Step) {
    s.write.UpdateTrigger? ==>
      && s.write.agent in s.after.agents
      && s.write.trigger in s.after.agents[s.write.agent].triggers
      && s.after.agents[s.write.agent].triggers[s.write.trigger] == s.write.spec
  }

  ghost predicate StepFine(before: World, s: Step, agent: Id, prev: map<Id, string>) {
    OnlyTriggers(before, s.after, agent) && UpdateReached(s) &&
    ForeignKept(before.agents[agent].triggers, s.after.agents[agent].triggers, prev)
  }

  ghost predicate Grown(old_: seq<Step>, new_: seq<Step>) {
    |old_| <= |new_| && new_[..|old_|] == old_
  }

  ghost predicate StepsFine(trace: seq<Step>, from: nat, before: World, agent: Id, prev: map<Id, string>) {
    forall k | from <= k < |trace| :: WellFormed(trace[k].after) && StepFine(before, trace[k], agent, prev)
  }

  /** What is left of the listed triggers once the managed identifiers outside `todo` have
      been looked at: those whose recorded name is no longer declared are gone. */
  ghost function Surviving(listed: map<Id, TriggerSpec>, decl: seq<TriggerSpec>, prev: map<Id, string>, todo: set<Id>)
    : map<Id, TriggerSpec>
  {
    map id | id in listed && (id in prev && id !in todo ==> Declares(decl, prev[id])) :: listed[id]
  }

  /** The name under which each surviving trigger is considered: its recorded name if it
      is managed, whatever it is called now, and its own name otherwise. */
  ghost function Grouping(listed: map<Id, TriggerSpec>, decl: seq<TriggerSpec>, prev: map<Id, string>, todo: set<Id>)
    : map<Id, string>
  {
    map id | id in listed && (id in prev && id !in todo ==> Declares(decl, prev[id])) ::
      if id in prev && id !in todo then prev[id] else listed[id].name
  }

  lemma OwnershipStart(listed: map<Id, TriggerSpec>, decl: seq<TriggerSpec>, prev: map<Id, string>)
    ensures Surviving(listed, decl, prev, prev.Keys) == listed
    ensures Grouping(listed, decl, prev, prev.Keys) == map id | id in listed :: listed[id].name
  {
  }

  lemma SurvivingStep(listed: map<Id, TriggerSpec>, decl: seq<TriggerSpec>, prev: map<Id, string>, todo: set<Id>, id: Id)
    requires id in todo && id in prev
    ensures Surviving(listed, decl, prev, todo - {id}) ==
            if id in listed && !Declares(decl, prev[id]) then Surviving(listed, decl, prev, todo) - {id} else Surviving(listed, decl, prev, todo)
  {
    hide Declares;
  }

  lemma GroupingStep(listed: map<Id, TriggerSpec>, decl: seq<TriggerSpec>, prev: map<Id, string>, todo: set<Id>, id: Id)
    requires id in todo && id in prev
    ensures Grouping(listed, decl, prev, todo - {id}) ==
            if id !in listed then Grouping(listed, decl, prev, todo)
            else if Declares(decl, prev[id]) then Grouping(listed, decl, prev, todo)[id := prev[id]]
            else Grouping(listed, decl, prev, todo) - {id}
    ensures id in listed ==> id in Grouping(listed, decl, prev, todo) && Grouping(listed, decl, prev, todo)[id] == listed[id].name
  {
    hide Declares;
  }

  lemma OwnershipStep(listed: map<Id, TriggerSpec>, decl: seq<TriggerSpec>, prev: map<Id, string>, todo: set<Id>, id: Id)
    requires id in todo && id in prev
    ensures id !in listed ==>
              Surviving(listed, decl, prev, todo - {id}) == Surviving(listed, decl, prev, todo) &&
              Grouping(listed, decl, prev, todo - {id}) == Grouping(listed, decl, prev, todo)
    ensures id in listed && !Declares(decl, prev[id]) ==>
              Surviving(listed, decl, prev, todo - {id}) == Surviving(listed, decl, prev, todo) - {id} &&
              Grouping(listed, decl, prev, todo - {id}) == Grouping(listed, decl, prev, todo) - {id}
    ensures id in listed && Declares(decl, prev[id]) ==>
              Surviving(listed, decl, prev, todo - {id}) == Surviving(listed, decl, prev, todo) &&
              Grouping(listed, decl, prev, todo - {id}) == Grouping(listed, decl, prev, todo)[id := prev[id]]
    ensures id in listed && Declares(decl, prev[id]) && listed[id].name == prev[id] ==>
              Grouping(listed, decl, prev, todo - {id}) == Grouping(listed, decl, prev, todo)
  {
    hide Declares, Surviving, Grouping;
    SurvivingStep(listed, decl, prev, todo, id);
    GroupingStep(listed, decl, prev, todo, id);
  }

  /** Nothing to drop and nothing to take back. */
  ghost predicate OwnershipSettled(listed: map<Id, TriggerSpec>, decl: seq<TriggerSpec>, prev: map<Id, string>) {
    forall id | id in listed && id in prev :: prev[id] == listed[id].name && Declares(decl, prev[id])
  }

  /** The state, relative to the one before the synchronisation, on which every write keeps. */
  ghost predicate Within(g: Gateway, from: nat, before: World, agent: Id, prev: map<Id, string>)
    reads g
  {
    && WellFormed(before) && WellFormed(g.world)
    && agent in before.agents && agent in g.world.agents && before.nextId <= g.world.nextId
    && OnlyTriggers(before, g.world, agent)
    && ForeignKept(before.agents[agent].triggers, g.world.agents[agent].triggers, prev)
    && from <= |g.trace| && StepsFine(g.trace, from, before, agent, prev)
  }

  /** One write to the triggers of `agent` that leaves foreign triggers alone. */
  method SendTrigger(g: Gateway, wr: Write, ghost from: nat, ghost before: World, agent: Id, ghost prev: map<Id, string>)
    returns (ok: bool, id: Id)
    requires Within(g, from, before, agent, prev)
    requires wr.CreateTrigger? || wr.UpdateTrigger? || wr.DeleteTrigger?
    requires wr.agent == agent
    requires wr.UpdateTrigger? ==>
      && (wr.trigger in prev || before.nextId <= wr.trigger) && wr.trigger in g.world.agents[agent].triggers
      && KeepUpdate(g.world.agents[agent].triggers[wr.trigger], wr.spec) == wr.spec
    requires wr.DeleteTrigger? ==> wr.trigger in prev
    modifies g
    ensures Within(g, from, before, agent, prev) && Grown(old(g.trace), g.trace)
    ensures g.calls == old(g.calls) + 1 && id == old(g.world.nextId)
    ensures ok ==> g.failed == old(g.failed)
    ensures ok <==> Accepts(old(g.world), wr) && g.outcome(old(g.calls)) == Done
    ensures ok ==> g.world == Apply(old(g.world), wr)
    ensures old(g.world.nextId) <= g.world.nextId
    ensures g.world == old(g.world) || (Accepts(old(g.world), wr) && g.world == Apply(old(g.world), wr))
  {
    hide WellFormed, OnlyTriggers, ForeignKept, UpdateReached, Apply;
    ghost var w := g.world;
    ghost var t := g.trace;
    ok, id := g.Send(wr);
    if g.trace != t {
      SentTriggerFine(before, w, wr, agent, prev);
    }
  }

  lemma SentTriggerFine(before: World, w: World, wr: Write, agent: Id, prev: map<Id, string>)
    requires WellFormed(w) && OnlyTriggers(before, w, agent)
    requires ForeignKept(before.agents[agent].triggers, w.agents[agent].triggers, prev)
    requires WellFormed(before) && before.nextId <= w.nextId
    requires wr.CreateTrigger? || wr.UpdateTrigger? || wr.DeleteTrigger?
    requires wr.agent == agent && Accepts(w, wr)
    requires wr.UpdateTrigger? ==>
      (wr.trigger in prev || before.nextId <= wr.trigger) && KeepUpdate(w.agents[agent].triggers[wr.trigger], wr.spec) == wr.spec
    requires wr.DeleteTrigger? ==> wr.trigger in prev
    ensures StepFine(before, Step(wr, Apply(w, wr)), agent, prev) && agent in Apply(w, wr).agents && w.nextId <= Apply(w, wr).nextId
  {
    hide WellFormed, OnlyTriggers, ForeignKept;
    var now := w.agents[agent];
    var next := ApplyTo(now, wr, w.nextId);
    assert next == now.(triggers := next.triggers);
    TriggersReplaced(before, w, agent, next.triggers);
    assert Apply(w, wr) == World(w.agents[agent := next], w.nextId + 1, w.defaults);
    ForeignStaysKept(before, now, wr, w.nextId, prev, agent);
  }

  lemma ForeignStaysKept(before: World, now: Agent, wr: Write, newId: Id, prev: map<Id, string>, agent: Id)
    requires WellFormed(before) && agent in before.agents && before.nextId <= newId
    requires ForeignKept(before.agents[agent].triggers, now.triggers, prev)
    requires wr.CreateTrigger? || wr.UpdateTrigger? || wr.DeleteTrigger?
    requires wr.UpdateTrigger? ==> wr.trigger in now.triggers && (wr.trigger in prev || before.nextId <= wr.trigger)
    requires wr.DeleteTrigger? ==> wr.trigger in prev
    ensures ForeignKept(before.agents[agent].triggers, ApplyTo(now, wr, newId).triggers, prev)
  {
    assert AgentOk(before.agents[agent], before.nextId);
  }

  lemma TriggersReplaced(before: World, w: World, agent: Id, triggers: map<Id, TriggerSpec>)
    requires OnlyTriggers(before, w, agent)
    ensures OnlyTriggers(before, World(w.agents[agent := w.agents[agent].(triggers := triggers)], w.nextId + 1, w.defaults), agent)
  {
    assert w.agents[agent := w.agents[agent].(triggers := triggers)] ==
           before.agents[agent := before.agents[agent].(triggers := triggers)];
  }

  /** First pass of a synchronisation. `groups` maps each listed trigger to the name it is
      grouped under; it starts as the listed names. */
  method ReconcileOwnership(g: Gateway, agent: Id, decl: seq<TriggerSpec>, prev: map<Id, string>, force: bool,
                            listed: map<Id, TriggerSpec>, ghost from: nat, ghost before: World)
    returns (ok: bool, groups: map<Id, string>)
    requires Within(g, from, before, agent, prev) && listed == g.world.agents[agent].triggers
    modifies g
    ensures Within(g, from, before, agent, prev) && Grown(old(g.trace), g.trace) && old(g.calls) <= g.calls
    ensures ok ==> g.failed == old(g.failed)
    ensures ok ==> g.world.agents[agent].triggers == Surviving(listed, decl, prev, {})
    ensures ok ==> groups == Grouping(listed, decl, prev, {})
    ensures force && AllDone(g.outcome, old(g.calls)) ==> ok
    ensures OwnershipSettled(listed, decl, prev) ==> ok && g.trace == old(g.trace) && g.world == old(g.world)
  {
    hide WellFormed, OnlyTriggers, ForeignKept, StepsFine, Declares, Surviving, Grouping;
    groups := map id | id in listed :: listed[id].name;
    OwnershipStart(listed, decl, prev);
    var todo := prev.Keys;
    while todo != {}
      invariant todo <= prev.Keys
      invariant Within(g, from, before, agent, prev) && Grown(old(g.trace), g.trace) && old(g.calls) <= g.calls && g.failed == old(g.failed)
      invariant g.world.agents[agent].triggers == Surviving(listed, decl, prev, todo)
      invariant groups == Grouping(listed, decl, prev, todo)
      invariant OwnershipSettled(listed, decl, prev) ==> g.trace == old(g.trace) && g.world == old(g.world)
    {
      var id :| id in todo;
      OwnershipStep(listed, decl, prev, todo, id);
      todo := todo - {id};
      if id in listed {
        if !Declares(decl, prev[id]) {
          if !force {
            return false, groups;
          }
          var sent, _ := SendTrigger(g, DeleteTrigger(agent, id), from, before, agent, prev);
          if !sent {
            return false, groups;
          }
          groups := groups - {id};
        } else if listed[id].name != prev[id] {
          if !force {
            return false, groups;
          }
          groups := groups[id := prev[id]];
        }
      }
    }
    ok := true;
  }

  // ----- The second pass: one declared trigger after the other

  /** `id` carries the declaration `t`: it is new, or it is a managed trigger that could be
      kept. */
  ghost predicate Carries(actual: map<Id, TriggerSpec>, id: Id, t: TriggerSpec,
                          listed: map<Id, TriggerSpec>, prev: map<Id, string>, bound: Id)
  {
    && id in actual && actual[id] == t
    && (bound <= id || (id in listed && id in prev && prev[id] == t.name && !NeedsRecreate(listed[id], t)))
  }

  /** Only triggers grouped under `name`, and new ones named so, differ. */
  ghost predicate OnlyGroup(cur: map<Id, TriggerSpec>, after: map<Id, TriggerSpec>, groups: map<Id, string>,
                            name: string, bound: Id)
  {
    && (forall id | id in cur && !(id in groups && groups[id] == name) :: id in after && after[id] == cur[id])
    && (forall id | id in after :: (id in cur && after[id] == cur[id]) || after[id].name == name)
    && (forall id | id in after && id !in cur :: bound <= id)
  }

  lemma NextIdIsNew(w: World, agent: Id)
    requires WellFormed(w) && agent in w.agents
    ensures w.nextId !in w.agents[agent].triggers
  {
    assert AgentOk(w.agents[agent], w.nextId);
  }

  method CreateDeclared(g: Gateway, agent: Id, t: TriggerSpec, ghost from: nat, ghost before: World, ghost prev: map<Id, string>)
    returns (ok: bool, ghost id: Id)
    requires Within(g, from, before, agent, prev) && t.name != "" && t.timezone != ""
    modifies g
    ensures Within(g, from, before, agent, prev) && Grown(old(g.trace), g.trace) && old(g.calls) <= g.calls
    ensures ok ==> g.failed == old(g.failed)
    ensures id == old(g.world.nextId) <= g.world.nextId && id !in old(g.world.agents[agent].triggers)
    ensures var cur, after := old(g.world.agents[agent].triggers), g.world.agents[agent].triggers;
            after == cur || after == cur[id := t] || after == cur[id := NewTrigger(t)]
    ensures ok ==> g.world.agents[agent].triggers == old(g.world.agents[agent].triggers)[id := t]
    ensures ok ==> TriggerNameFree(old(g.world.agents[agent].triggers), t.name, old(g.world.nextId))
    ensures AllDone(g.outcome, old(g.calls)) && TriggerNameFree(old(g.world.agents[agent].triggers), t.name, old(g.world.nextId)) ==> ok
  {
    hide WellFormed, ForeignKept, StepsFine;
    NextIdIsNew(g.world, agent);
    var replyId;
    ok, replyId := SendTrigger(g, CreateTrigger(agent, t), from, before, agent, prev);
    id := replyId;
    if ok && !t.enabled {
      var updated, _ := SendTrigger(g, UpdateTrigger(agent, replyId, t), from, before, agent, prev);
      ok := updated;
    }
  }

  /** The group of a declared trigger: the listed triggers considered under its name. */
  ghost predicate GroupIntact(cur: map<Id, TriggerSpec>, listed: map<Id, TriggerSpec>, groups: map<Id, string>, name: string) {
    forall id | id in groups && groups[id] == name :: id in cur && id in listed && cur[id] == listed[id]
  }

  /** The name is borne only inside its group, and the group is managed. */
  ghost predicate GroupClear(cur: map<Id, TriggerSpec>, groups: map<Id, string>, prev: map<Id, string>, name: string) {
    && (forall id | id in cur && cur[id].name == name :: id in groups && groups[id] == name)
    && (forall id | id in groups && groups[id] == name :: id in prev && prev[id] == name)
  }

  /** Each surviving member of the group bears its name. */
  ghost predicate GroupNamed(cur: map<Id, TriggerSpec>, groups: map<Id, string>, name: string) {
    forall c | c in groups && groups[c] == name && c in cur :: cur[c].name == name
  }

  lemma GroupUntouched(cur: map<Id, TriggerSpec>, groups: map<Id, string>, name: string, bound: Id)
    ensures OnlyGroup(cur, cur, groups, name, bound)
  {
  }

  lemma GroupMemberAdded(cur: map<Id, TriggerSpec>, after: map<Id, TriggerSpec>, groups: map<Id, string>,
                         prev: map<Id, string>, id: Id, t: TriggerSpec)
    requires id !in cur
    requires after == cur || after == cur[id := t] || after == cur[id := NewTrigger(t)]
    ensures OnlyGroup(cur, after, groups, t.name, id)
    ensures (forall c | c in groups :: groups[c] != t.name) ==>
              (GroupClear(cur, groups, prev, t.name) <==> TriggerNameFree(cur, t.name, id))
  {
  }

  /** Only `existing`, and new triggers named `name`, differ. */
  ghost predicate Replaced(cur: map<Id, TriggerSpec>, after: map<Id, TriggerSpec>, existing: Id, name: string, bound: Id) {
    && (forall id | id in cur && id != existing :: id in after && after[id] == cur[id])
    && (forall id | id in after :: (id in cur && after[id] == cur[id]) || after[id].name == name)
    && (forall id | id in after && id !in cur :: bound <= id)
  }

  lemma GroupMemberReplaced(cur: map<Id, TriggerSpec>, after: map<Id, TriggerSpec>, groups: map<Id, string>,
                            prev: map<Id, string>, existing: Id, name: string, bound: Id)
    requires existing in groups && groups[existing] == name
    requires Replaced(cur, after, existing, name, bound)
    ensures OnlyGroup(cur, after, groups, name, bound)
  {
  }

  /** With one managed member, the group is clear exactly when nobody else bears its name. */
  lemma GroupClearMeans(cur: map<Id, TriggerSpec>, groups: map<Id, string>, prev: map<Id, string>, existing: Id, name: string)
    requires existing in groups && groups[existing] == name
    requires forall c | c in groups && groups[c] == name :: c in prev && prev[c] == name
    ensures TriggerNameFree(cur, name, existing) ==> GroupClear(cur, groups, prev, name)
    ensures Injective(prev) && GroupClear(cur, groups, prev, name) ==> TriggerNameFree(cur, name, existing)
  {
  }

  method UpdateOne(g: Gateway, agent: Id, existing: Id, t: TriggerSpec, ghost prev: map<Id, string>, ghost from: nat, ghost before: World)
    returns (ok: bool)
    requires Within(g, from, before, agent, prev) && t.name != "" && t.timezone != ""
    requires existing in prev && prev[existing] == t.name
    requires existing in g.world.agents[agent].triggers
    requires !NeedsRecreate(g.world.agents[agent].triggers[existing], t)
    modifies g
    ensures Within(g, from, before, agent, prev) && Grown(old(g.trace), g.trace) && old(g.calls) <= g.calls
    ensures ok ==> g.failed == old(g.failed)
    ensures old(g.world.nextId) <= g.world.nextId
    ensures var cur, after := old(g.world.agents[agent].triggers), g.world.agents[agent].triggers;
            (after == cur && !ok) || after == cur[existing := t]
    ensures ok ==> TriggerNameFree(old(g.world.agents[agent].triggers), t.name, existing)
    ensures AllDone(g.outcome, old(g.calls)) && TriggerNameFree(old(g.world.agents[agent].triggers), t.name, existing) ==> ok
  {
    hide WellFormed, ForeignKept, StepsFine, OnlyTriggers;
    RecreateExactlyWhenUpdateMisses(g.world.agents[agent].triggers[existing], t);
    var reply;
    ok, reply := SendTrigger(g, UpdateTrigger(agent, existing, t), from, before, agent, prev);
  }

  method RecreateOne(g: Gateway, agent: Id, existing: Id, t: TriggerSpec, ghost prev: map<Id, string>, ghost from: nat, ghost before: World)
    returns (ok: bool, ghost id: Id)
    requires Within(g, from, before, agent, prev) && t.name != "" && t.timezone != ""
    requires existing in prev && prev[existing] == t.name
    requires existing in g.world.agents[agent].triggers
    modifies g
    ensures Within(g, from, before, agent, prev) && Grown(old(g.trace), g.trace) && old(g.calls) <= g.calls
    ensures ok ==> g.failed == old(g.failed)
    ensures old(g.world.nextId) <= g.world.nextId
    ensures Replaced(old(g.world.agents[agent].triggers), g.world.agents[agent].triggers, existing, t.name, old(g.world.nextId))
    ensures ok ==> id in g.world.agents[agent].triggers && g.world.agents[agent].triggers[id] == t && old(g.world.nextId) <= id
    ensures ok ==> existing !in g.world.agents[agent].triggers
    ensures ok ==> TriggerNameFree(old(g.world.agents[agent].triggers), t.name, existing)
    ensures AllDone(g.outcome, old(g.calls)) && TriggerNameFree(old(g.world.agents[agent].triggers), t.name, existing) ==> ok
  {
    hide WellFormed, ForeignKept, StepsFine, OnlyTriggers, TriggerNameFree, Replaced;
    ghost var cur := g.world.agents[agent].triggers;
    ghost var bound := g.world.nextId;
    TriggerIdsBelow(g.world, agent);
    NotDeleted(cur, existing, t.name, bound);
    Deleted(cur, existing, t.name, bound);
    var deleted, _ := SendTrigger(g, DeleteTrigger(agent, existing), from, before, agent, prev);
    if !deleted {
      return false, 0;
    }
    NameFreed(cur, existing, t.name, g.world.nextId);
    ok, id := CreateDeclared(g, agent, t, from, before, prev);
    Recreated(cur, g.world.agents[agent].triggers, existing, t, id, bound);
  }

  lemma TriggerIdsBelow(w: World, agent: Id)
    requires WellFormed(w) && agent in w.agents
    ensures forall id | id in w.agents[agent].triggers :: id < w.nextId
  {
    assert AgentOk(w.agents[agent], w.nextId);
  }

  lemma NotDeleted(cur: map<Id, TriggerSpec>, existing: Id, name: string, bound: Id)
    ensures Replaced(cur, cur, existing, name, bound)
  {
  }

  lemma Deleted(cur: map<Id, TriggerSpec>, existing: Id, name: string, bound: Id)
    ensures Replaced(cur, cur - {existing}, existing, name, bound)
  {
  }

  lemma NameFreed(cur: map<Id, TriggerSpec>, existing: Id, name: string, newId: Id)
    requires newId !in cur
    ensures TriggerNameFree(cur - {existing}, name, newId) <==> TriggerNameFree(cur, name, existing)
  {
    var rest := cur - {existing};
    if TriggerNameFree(rest, name, newId) {
      forall id | id in cur && id != existing ensures cur[id].name != name {
        assert id in rest && rest[id] == cur[id];
      }
    }
  }

  lemma Recreated(cur: map<Id, TriggerSpec>, after: map<Id, TriggerSpec>, existing: Id, t: TriggerSpec, id: Id, bound: Id)
    requires id !in cur && bound <= id
    requires after == cur - {existing} || after == (cur - {existing})[id := t] || after == (cur - {existing})[id := NewTrigger(t)]
    ensures Replaced(cur, after, existing, t.name, bound)
  {
  }

  /** Update the existing managed trigger, or delete it and create it anew. */
  method ReplaceOne(g: Gateway, agent: Id, existing: Id, t: TriggerSpec, prev: map<Id, string>,
                    listed: map<Id, TriggerSpec>, ghost from: nat, ghost before: World)
    returns (ok: bool, ghost id: Id)
    requires Within(g, from, before, agent, prev) && t.name != "" && t.timezone != ""
    requires existing in prev && prev[existing] == t.name && existing in listed && listed[existing] != t
    requires existing in g.world.agents[agent].triggers && g.world.agents[agent].triggers[existing] == listed[existing]
    modifies g
    ensures Within(g, from, before, agent, prev) && Grown(old(g.trace), g.trace) && old(g.calls) <= g.calls
    ensures ok ==> g.failed == old(g.failed)
    ensures old(g.world.nextId) <= g.world.nextId
    ensures Replaced(old(g.world.agents[agent].triggers), g.world.agents[agent].triggers, existing, t.name, old(g.world.nextId))
    ensures ok ==> Carries(g.world.agents[agent].triggers, id, t, listed, prev, old(g.world.nextId))
    ensures ok ==> id == existing || (old(g.world.nextId) <= id && NeedsRecreate(listed[existing], t))
    ensures ok ==> existing !in g.world.agents[agent].triggers || g.world.agents[agent].triggers[existing] == t
    ensures ok ==> TriggerNameFree(old(g.world.agents[agent].triggers), t.name, existing)
    ensures AllDone(g.outcome, old(g.calls)) ==>
              TriggerNameFree(old(g.world.agents[agent].triggers), t.name, existing) ==> ok
  {
    hide WellFormed, ForeignKept, StepsFine, OnlyTriggers, NeedsRecreate, TriggerNameFree;
    if NeedsRecreate(listed[existing], t) {
      ok, id := RecreateOne(g, agent, existing, t, prev, from, before);
    } else {
      ok := UpdateOne(g, agent, existing, t, prev, from, before);
      id := existing;
    }
  }

  /** Leave the existing managed trigger if it is as declared; a forced run replaces it if not. */
  method ServeExisting(g: Gateway, agent: Id, existing: Id, t: TriggerSpec, prev: map<Id, string>, force: bool,
                       listed: map<Id, TriggerSpec>, ghost from: nat, ghost before: World)
    returns (ok: bool, ghost id: Id)
    requires Within(g, from, before, agent, prev) && t.name != "" && t.timezone != ""
    requires existing in prev && prev[existing] == t.name && existing in listed
    requires existing in g.world.agents[agent].triggers && g.world.agents[agent].triggers[existing] == listed[existing]
    modifies g
    ensures Within(g, from, before, agent, prev) && Grown(old(g.trace), g.trace) && old(g.calls) <= g.calls
    ensures ok ==> g.failed == old(g.failed)
    ensures old(g.world.nextId) <= g.world.nextId
    ensures Replaced(old(g.world.agents[agent].triggers), g.world.agents[agent].triggers, existing, t.name, old(g.world.nextId))
    ensures ok ==> Carries(g.world.agents[agent].triggers, id, t, listed, prev, old(g.world.nextId))
    ensures ok ==> id == existing || (old(g.world.nextId) <= id && NeedsRecreate(listed[existing], t))
    ensures ok ==> existing !in g.world.agents[agent].triggers || g.world.agents[agent].triggers[existing] == t
    ensures ok ==> TriggerNameFree(old(g.world.agents[agent].triggers), t.name, existing)
    ensures force && AllDone(g.outcome, old(g.calls)) ==>
              TriggerNameFree(old(g.world.agents[agent].triggers), t.name, existing) ==> ok
    ensures listed[existing] == t ==> ok && g.world == old(g.world) && g.trace == old(g.trace)
  {
    TriggerNamesDiffer(g.world, agent);
    hide WellFormed, ForeignKept, StepsFine, OnlyTriggers, TriggerNameFree;
    if listed[existing] == t {
      return true, existing;
    }
    hide NeedsRecreate;
    if !force {
      return false, 0;
    }
    ok, id := ReplaceOne(g, agent, existing, t, prev, listed, from, before);
  }

  ghost predicate GroupMatches(listed: map<Id, TriggerSpec>, groups: map<Id, string>, t: TriggerSpec) {
    exists c :: c in groups && groups[c] == t.name && c in listed && listed[c] == t
  }

  lemma TriggerNamesDiffer(w: World, agent: Id)
    requires WellFormed(w) && agent in w.agents
    ensures forall id | id in w.agents[agent].triggers :: TriggerNameFree(w.agents[agent].triggers, w.agents[agent].triggers[id].name, id)
  {
    assert AgentOk(w.agents[agent], w.nextId);
  }

  lemma NotClear(cur: map<Id, TriggerSpec>, groups: map<Id, string>, prev: map<Id, string>, name: string)
    requires exists c | c in groups && groups[c] == name :: !(c in prev && prev[c] == name)
    ensures !GroupClear(cur, groups, prev, name)
  {
  }

  lemma OneMember(groups: map<Id, string>, prev: map<Id, string>, existing: Id, name: string)
    requires existing in groups && groups[existing] == name
    requires forall c | c in groups && groups[c] == name :: c in prev && prev[c] == name
    ensures Injective(prev) ==> forall c | c in groups && groups[c] == name :: c == existing
  {
  }

  method SyncOne(g: Gateway, agent: Id, t: TriggerSpec, prev: map<Id, string>, force: bool, listed: map<Id, TriggerSpec>,
                 groups: map<Id, string>, ghost from: nat, ghost before: World)
    returns (ok: bool, ghost id: Id)
    requires Within(g, from, before, agent, prev) && t.name != "" && t.timezone != ""
    requires GroupIntact(g.world.agents[agent].triggers, listed, groups, t.name)
    requires forall c | c in groups :: c < g.world.nextId
    modifies g
    ensures Within(g, from, before, agent, prev) && Grown(old(g.trace), g.trace) && old(g.calls) <= g.calls
    ensures ok ==> g.failed == old(g.failed)
    ensures old(g.world.nextId) <= g.world.nextId
    ensures OnlyGroup(old(g.world.agents[agent].triggers), g.world.agents[agent].triggers, groups, t.name, old(g.world.nextId))
    ensures ok ==> Carries(g.world.agents[agent].triggers, id, t, listed, prev, old(g.world.nextId))
    ensures ok ==> (id in groups && groups[id] == t.name) || old(g.world.nextId) <= id
    ensures ok ==> forall c | c in groups && groups[c] == t.name :: c in prev && prev[c] == t.name
    ensures ok && Injective(prev) && old(g.world.nextId) <= id ==> forall c | c in groups && groups[c] == t.name :: NeedsRecreate(listed[c], t)
    ensures ok && Injective(prev) ==> GroupNamed(g.world.agents[agent].triggers, groups, t.name)
    ensures ok ==> GroupClear(old(g.world.agents[agent].triggers), groups, prev, t.name)
    ensures (force || forall c | c in groups :: groups[c] != t.name) && AllDone(g.outcome, old(g.calls)) && Injective(prev) ==>
              GroupClear(old(g.world.agents[agent].triggers), groups, prev, t.name) ==> ok
    ensures Injective(prev) && GroupClear(old(g.world.agents[agent].triggers), groups, prev, t.name) ==>
              GroupMatches(listed, groups, t) ==>
              ok && g.world == old(g.world) && g.trace == old(g.trace)
  {
    hide WellFormed, ForeignKept, StepsFine, OnlyTriggers, OnlyGroup, GroupClear, TriggerNameFree, Apply, UpdateReached,
      StepFine, AgentOk, Declares, NeedsRecreate, Replaced;
    ghost var cur := g.world.agents[agent].triggers;
    ghost var bound := g.world.nextId;
    var candidates := set c | c in groups && groups[c] == t.name;
    assert forall c | c in groups && groups[c] == t.name :: c in candidates;
    GroupUntouched(cur, groups, t.name, bound);
    if exists c | c in candidates :: !(c in prev && prev[c] == t.name) {
      NotClear(cur, groups, prev, t.name);
      return false, 0;
    }
    if candidates != {} {
      var existing :| existing in candidates;
      GroupClearMeans(cur, groups, prev, existing, t.name);
      OneMember(groups, prev, existing, t.name);
      ok, id := ServeExisting(g, agent, existing, t, prev, force, listed, from, before);
      GroupMemberReplaced(cur, g.world.agents[agent].triggers, groups, prev, existing, t.name, bound);
    } else {
      ok, id := CreateDeclared(g, agent, t, from, before, prev);
      GroupMemberAdded(cur, g.world.agents[agent].triggers, groups, prev, id, t);
    }
  }

  // ----- The whole synchronisation

  /** When the `i`-th declaration has its turn its name is free for it: no unmanaged trigger
      bears it, and no live trigger recorded for a later declaration does. */
  ghost predicate AttainableAt(listed: map<Id, TriggerSpec>, decl: seq<TriggerSpec>, prev: map<Id, string>, i: nat)
    requires i < |decl|
  {
    forall id | id in listed && listed[id].name == decl[i].name ::
      id in prev && forall j | i < j < |decl| :: prev[id] != decl[j].name
  }

  ghost predicate Attainable(listed: map<Id, TriggerSpec>, decl: seq<TriggerSpec>, prev: map<Id, string>) {
    forall i | 0 <= i < |decl| :: AttainableAt(listed, decl, prev, i)
  }

  ghost predicate NamedBefore(decl: seq<TriggerSpec>, i: nat, name: string)
    requires i <= |decl|
  {
    exists k | 0 <= k < i :: decl[k].name == name
  }

  ghost predicate Carrier(cur: map<Id, TriggerSpec>, id: Id, t: TriggerSpec, listed: map<Id, TriggerSpec>,
                          groups: map<Id, string>, prev: map<Id, string>, bound: Id)
  {
    && Carries(cur, id, t, listed, prev, bound)
    && ((id in groups && groups[id] == t.name) || bound <= id)
  }

  /** After the first `i` declarations: each has its carrier, and the groups of the others
      are as listed. */
  ghost predicate Progress(cur: map<Id, TriggerSpec>, decl: seq<TriggerSpec>, served: seq<Id>, listed: map<Id, TriggerSpec>,
                           groups: map<Id, string>, prev: map<Id, string>, bound: Id)
  {
    && |served| <= |decl|
    && (forall c | c in groups && !NamedBefore(decl, |served|, groups[c]) :: c in cur && c in listed && cur[c] == listed[c])
    && (forall k | 0 <= k < |served| :: Carrier(cur, served[k], decl[k], listed, groups, prev, bound))
    && (forall id | id in cur && !NamedBefore(decl, |served|, cur[id].name) ::
          id in groups && id in listed && cur[id] == listed[id])
    && (forall id | id in cur && id !in groups :: bound <= id)
    && (forall c | c in groups && NamedBefore(decl, |served|, groups[c]) :: c in prev)
  }

  /** A declaration got a new trigger only if its recorded one could not be updated. */
  ghost predicate NewOnlyIfNeeded(decl: seq<TriggerSpec>, served: seq<Id>, listed: map<Id, TriggerSpec>,
                                  groups: map<Id, string>, bound: Id)
  {
    |served| <= |decl| &&
    forall k, c | 0 <= k < |served| && c in groups && groups[c] == decl[k].name && bound <= served[k] ::
      c in listed && NeedsRecreate(listed[c], decl[k])
  }

  lemma ProgressStart(listed: map<Id, TriggerSpec>, decl: seq<TriggerSpec>, prev: map<Id, string>, bound: Id)
    ensures Progress(Surviving(listed, decl, prev, {}), decl, [], listed, Grouping(listed, decl, prev, {}), prev, bound)
    ensures NewOnlyIfNeeded(decl, [], listed, Grouping(listed, decl, prev, {}), bound)
    ensures ServedNamed(Surviving(listed, decl, prev, {}), decl, 0, Grouping(listed, decl, prev, {}))
  {
  }

  lemma ProgressStep(cur: map<Id, TriggerSpec>, after: map<Id, TriggerSpec>, decl: seq<TriggerSpec>, served: seq<Id>, id: Id,
                     listed: map<Id, TriggerSpec>, groups: map<Id, string>, prev: map<Id, string>, bound: Id, newBound: Id)
    requires Loaded(decl) && |served| < |decl| && bound <= newBound
    requires forall c | c in groups :: c < bound
    requires Progress(cur, decl, served, listed, groups, prev, bound)
    requires OnlyGroup(cur, after, groups, decl[|served|].name, newBound)
    requires Carrier(after, id, decl[|served|], listed, groups, prev, newBound)
    requires forall c | c in groups && groups[c] == decl[|served|].name :: c in prev
    ensures Progress(after, decl, served + [id], listed, groups, prev, bound)
  {
    hide NamedBefore, NeedsRecreate;
    var n := |served|;
    var t := decl[n];
    var served' := served + [id];
    forall name ensures NamedBefore(decl, |served'|, name) <==> NamedBefore(decl, |served|, name) || name == t.name {
      NamedBeforeStep(decl, n, name);
    }
    forall k | 0 <= k < n ensures Carrier(after, served[k], decl[k], listed, groups, prev, bound) {
      EarlierCarrierStays(cur, after, decl, served, k, listed, groups, prev, bound, newBound);
    }
    assert served'[n] == id;
    assert Carrier(after, id, decl[n], listed, groups, prev, bound);
  }

  lemma NamedBeforeStep(decl: seq<TriggerSpec>, n: nat, name: string)
    requires n < |decl|
    ensures NamedBefore(decl, n + 1, name) <==> NamedBefore(decl, n, name) || name == decl[n].name
  {
  }

  lemma EarlierCarrierStays(cur: map<Id, TriggerSpec>, after: map<Id, TriggerSpec>, decl: seq<TriggerSpec>, served: seq<Id>, k: nat,
                     listed: map<Id, TriggerSpec>, groups: map<Id, string>, prev: map<Id, string>, bound: Id, newBound: Id)
    requires Loaded(decl) && k < |served| < |decl|
    requires forall c | c in groups :: c < bound
    requires Carrier(cur, served[k], decl[k], listed, groups, prev, bound)
    requires OnlyGroup(cur, after, groups, decl[|served|].name, newBound)
    ensures Carrier(after, served[k], decl[k], listed, groups, prev, bound)
  {
  }

  /** The groups that had their turn hold triggers of their names only. */
  ghost predicate ServedNamed(cur: map<Id, TriggerSpec>, decl: seq<TriggerSpec>, n: nat, groups: map<Id, string>)
    requires n <= |decl|
  {
    forall k | 0 <= k < n :: GroupNamed(cur, groups, decl[k].name)
  }

  lemma ServedNamedStep(cur: map<Id, TriggerSpec>, after: map<Id, TriggerSpec>, decl: seq<TriggerSpec>, n: nat,
                        groups: map<Id, string>, bound: Id)
    requires Loaded(decl) && n < |decl| && ServedNamed(cur, decl, n, groups)
    requires OnlyGroup(cur, after, groups, decl[n].name, bound) && GroupNamed(after, groups, decl[n].name)
    requires forall c | c in groups :: c < bound
    ensures ServedNamed(after, decl, n + 1, groups)
  {
  }

  /** Under unique recorded names, the next group is clear exactly when its declaration is attainable. */
  lemma GroupReady(cur: map<Id, TriggerSpec>, decl: seq<TriggerSpec>, served: seq<Id>,
                   listed: map<Id, TriggerSpec>, prev: map<Id, string>, bound: Id)
    requires Loaded(decl) && |served| < |decl|
    requires Progress(cur, decl, served, listed, Grouping(listed, decl, prev, {}), prev, bound)
    requires forall id | id in listed :: id < bound
    ensures GroupIntact(cur, listed, Grouping(listed, decl, prev, {}), decl[|served|].name)
    ensures ServedNamed(cur, decl, |served|, Grouping(listed, decl, prev, {})) ==>
              (GroupClear(cur, Grouping(listed, decl, prev, {}), prev, decl[|served|].name) <==>
               AttainableAt(listed, decl, prev, |served|))
  {
    var n := |served|;
    var name := decl[n].name;
    var groups := Grouping(listed, decl, prev, {});
    hide Carrier;
    assert !NamedBefore(decl, n, name);
    if ServedNamed(cur, decl, n, groups) {
      if AttainableAt(listed, decl, prev, n) {
        ClearFromAttainable(cur, decl, served, listed, prev, bound);
      }
      if GroupClear(cur, groups, prev, name) {
        AttainableFromClear(cur, decl, served, listed, prev, bound);
      }
    }
  }

  /** What the progress says about a trigger that bears a name whose turn has not come. */
  lemma StillAsListed(cur: map<Id, TriggerSpec>, decl: seq<TriggerSpec>, served: seq<Id>, listed: map<Id, TriggerSpec>,
                      groups: map<Id, string>, prev: map<Id, string>, bound: Id, id: Id)
    requires Progress(cur, decl, served, listed, groups, prev, bound)
    requires id in cur && !NamedBefore(decl, |served|, cur[id].name)
    ensures id in groups && id in listed && cur[id] == listed[id]
  {
    hide Carrier;
  }

  lemma LaterNamesAreNew(decl: seq<TriggerSpec>, n: nat)
    requires Loaded(decl) && n < |decl|
    ensures forall j | n <= j < |decl| :: !NamedBefore(decl, n, decl[j].name) && Declares(decl, decl[j].name)
  {
  }

  /** A declared name, with the place of its declaration. */
  lemma DeclaredAt(decl: seq<TriggerSpec>, name: string) returns (j: nat)
    requires Declares(decl, name)
    ensures j < |decl| && decl[j].name == name
  {
    j :| 0 <= j < |decl| && decl[j].name == name;
  }

  /** A group holds managed triggers of declared names and unmanaged ones under their own. */
  lemma GroupOf(listed: map<Id, TriggerSpec>, decl: seq<TriggerSpec>, prev: map<Id, string>, id: Id)
    requires id in Grouping(listed, decl, prev, {})
    ensures id in listed && Grouping(listed, decl, prev, {})[id] == (if id in prev then prev[id] else listed[id].name)
    ensures id in prev ==> Declares(decl, prev[id])
  {
    hide Declares;
  }

  lemma ClearFromAttainable(cur: map<Id, TriggerSpec>, decl: seq<TriggerSpec>, served: seq<Id>,
                            listed: map<Id, TriggerSpec>, prev: map<Id, string>, bound: Id)
    requires Loaded(decl) && |served| < |decl| && AttainableAt(listed, decl, prev, |served|)
    requires Progress(cur, decl, served, listed, Grouping(listed, decl, prev, {}), prev, bound)
    requires ServedNamed(cur, decl, |served|, Grouping(listed, decl, prev, {}))
    ensures GroupClear(cur, Grouping(listed, decl, prev, {}), prev, decl[|served|].name)
  {
    hide Progress, Grouping, NamedBefore, Declares;
    var n := |served|;
    var name := decl[n].name;
    var groups := Grouping(listed, decl, prev, {});
    LaterNamesAreNew(decl, n);
    forall id | id in cur && cur[id].name == name ensures id in groups && groups[id] == name {
      StillAsListed(cur, decl, served, listed, groups, prev, bound, id);
      GroupOf(listed, decl, prev, id);
      var j := DeclaredAt(decl, prev[id]);
      assert j < n ==> GroupNamed(cur, groups, decl[j].name);
    }
    forall id | id in groups && groups[id] == name ensures id in prev && prev[id] == name {
      GroupOf(listed, decl, prev, id);
    }
  }

  lemma AttainableFromClear(cur: map<Id, TriggerSpec>, decl: seq<TriggerSpec>, served: seq<Id>,
                            listed: map<Id, TriggerSpec>, prev: map<Id, string>, bound: Id)
    requires Loaded(decl) && |served| < |decl|
    requires Progress(cur, decl, served, listed, Grouping(listed, decl, prev, {}), prev, bound)
    requires GroupClear(cur, Grouping(listed, decl, prev, {}), prev, decl[|served|].name)
    ensures AttainableAt(listed, decl, prev, |served|)
  {
    var n := |served|;
    var name := decl[n].name;
    var groups := Grouping(listed, decl, prev, {});
    hide Carrier;
    forall j | n <= j < |decl| ensures Declares(decl, decl[j].name) && !NamedBefore(decl, n, decl[j].name) {
    }
    forall id | id in listed && listed[id].name == name && id !in prev ensures groups[id] == name {
    }
    forall id, j | id in listed && id in prev && n <= j < |decl| && prev[id] == decl[j].name ensures id in groups && groups[id] == decl[j].name {
    }
  }

  lemma MatchIsAttainable(listed: map<Id, TriggerSpec>, decl: seq<TriggerSpec>, prev: map<Id, string>)
    requires Loaded(decl) && TriggersMatch(listed, decl, prev)
    ensures Attainable(listed, decl, prev)
    ensures Injective(prev) ==> OwnershipSettled(listed, decl, prev)
    ensures forall i | 0 <= i < |decl| :: GroupMatches(listed, Grouping(listed, decl, prev, {}), decl[i])
  {
    forall i | 0 <= i < |decl| ensures GroupMatches(listed, Grouping(listed, decl, prev, {}), decl[i]) {
      assert Served(listed, prev, decl[i]);
      var c :| Serves(listed, prev, c, decl[i]);
      assert c in Grouping(listed, decl, prev, {});
    }
    if Injective(prev) {
      forall id | id in listed && id in prev ensures prev[id] == listed[id].name && Declares(decl, prev[id]) {
        var i :| 0 <= i < |decl| && decl[i].name == prev[id];
        assert Served(listed, prev, decl[i]);
      }
    }
    forall i | 0 <= i < |decl| ensures AttainableAt(listed, decl, prev, i) {
      assert Served(listed, prev, decl[i]);
    }
  }

  ghost predicate Carried(actual: map<Id, TriggerSpec>, t: TriggerSpec, listed: map<Id, TriggerSpec>, prev: map<Id, string>, bound: Id) {
    exists id :: Carries(actual, id, t, listed, prev, bound)
  }

  /** What a successful synchronisation establishes: one trigger as declared per declared
      name, kept under its identifier or new; no survivor whose recorded name is no longer
      declared; no declared name had been borne by a foreign trigger. */
  ghost predicate Synced(listed: map<Id, TriggerSpec>, after: map<Id, TriggerSpec>, decl: seq<TriggerSpec>,
                         prev: map<Id, string>, bound: Id)
  {
    && (forall i | 0 <= i < |decl| :: Carried(after, decl[i], listed, prev, bound))
    && (forall id | id in listed && id in prev && !Declares(decl, prev[id]) :: id !in after)
    && (forall id | id in listed && id !in prev :: !Declares(decl, listed[id].name))
  }

  /** Recorded triggers that an update can bring to their declaration kept their identifier. */
  ghost predicate KeptWherePossible(listed: map<Id, TriggerSpec>, after: map<Id, TriggerSpec>, decl: seq<TriggerSpec>,
                                    prev: map<Id, string>)
  {
    forall i, id | 0 <= i < |decl| && id in listed && id in prev && prev[id] == decl[i].name && !NeedsRecreate(listed[id], decl[i]) ::
      id in after && after[id] == decl[i]
  }

  lemma ProgressEnd(after: map<Id, TriggerSpec>, decl: seq<TriggerSpec>, served: seq<Id>, listed: map<Id, TriggerSpec>,
                    prev: map<Id, string>, bound: Id)
    requires |served| == |decl| && (forall id | id in listed :: id < bound)
    requires Progress(after, decl, served, listed, Grouping(listed, decl, prev, {}), prev, bound)
    ensures Synced(listed, after, decl, prev, bound)
  {
    hide NeedsRecreate;
    var groups := Grouping(listed, decl, prev, {});
    forall i | 0 <= i < |decl| ensures Carried(after, decl[i], listed, prev, bound) {
      assert Carrier(after, served[i], decl[i], listed, groups, prev, bound);
    }
    forall id | id in listed && id in prev && !Declares(decl, prev[id]) ensures id !in after {
      assert id !in groups;
    }
    forall id | id in listed && id !in prev ensures !Declares(decl, listed[id].name) {
      assert id in groups && groups[id] == listed[id].name;
    }
  }

  lemma KeptEnd(after: map<Id, TriggerSpec>, decl: seq<TriggerSpec>, served: seq<Id>, listed: map<Id, TriggerSpec>,
                prev: map<Id, string>, bound: Id)
    requires |served| == |decl| && Injective(prev)
    requires Progress(after, decl, served, listed, Grouping(listed, decl, prev, {}), prev, bound)
    requires NewOnlyIfNeeded(decl, served, listed, Grouping(listed, decl, prev, {}), bound)
    ensures KeptWherePossible(listed, after, decl, prev)
  {
    hide NeedsRecreate;
    var groups := Grouping(listed, decl, prev, {});
    forall i, id | 0 <= i < |decl| && id in listed && id in prev && prev[id] == decl[i].name && !NeedsRecreate(listed[id], decl[i])
      ensures id in after && after[id] == decl[i]
    {
      assert id in groups && groups[id] == decl[i].name;
      assert Carrier(after, served[i], decl[i], listed, groups, prev, bound);
    }
  }

  lemma NewOnlyIfNeededStep(cur: map<Id, TriggerSpec>, decl: seq<TriggerSpec>, served: seq<Id>, id: Id, listed: map<Id, TriggerSpec>,
                            groups: map<Id, string>, prev: map<Id, string>, bound: Id, newBound: Id)
    requires |served| < |decl| && bound <= newBound
    requires NewOnlyIfNeeded(decl, served, listed, groups, bound)
    requires GroupIntact(cur, listed, groups, decl[|served|].name)
    requires (id in groups && id < bound) || newBound <= id
    requires newBound <= id ==> forall c | c in groups && groups[c] == decl[|served|].name :: NeedsRecreate(listed[c], decl[|served|])
    ensures NewOnlyIfNeeded(decl, served + [id], listed, groups, bound)
  {
  }

  lemma WithinStart(g: Gateway, agent: Id, prev: map<Id, string>)
    requires WellFormed(g.world) && agent in g.world.agents
    ensures Within(g, |g.trace|, g.world, agent, prev)
  {
  }

  lemma GroupedIdsBelow(w: World, agent: Id, decl: seq<TriggerSpec>, prev: map<Id, string>)
    requires WellFormed(w) && agent in w.agents
    ensures forall id | id in w.agents[agent].triggers :: id < w.nextId
    ensures forall id | id in Grouping(w.agents[agent].triggers, decl, prev, {}) :: id < w.nextId
  {
    assert AgentOk(w.agents[agent], w.nextId);
  }

  /** Every declaration has a trigger of its own that a comparison accepts. */
  ghost predicate AllMatch(listed: map<Id, TriggerSpec>, groups: map<Id, string>, decl: seq<TriggerSpec>) {
    forall i | 0 <= i < |decl| :: GroupMatches(listed, groups, decl[i])
  }

  /** Second pass of a synchronisation: one declaration after the other. */
  method ServeDeclared(g: Gateway, agent: Id, decl: seq<TriggerSpec>, prev: map<Id, string>, force: bool, listed: map<Id, TriggerSpec>,
                       groups: map<Id, string>, ghost from: nat, ghost before: World)
    returns (ok: bool, ghost served: seq<Id>)
    requires Within(g, from, before, agent, prev) && Loaded(decl) && groups == Grouping(listed, decl, prev, {})
    requires g.world.agents[agent].triggers == Surviving(listed, decl, prev, {})
    requires forall id | id in listed :: id < before.nextId
    requires forall id | id in groups :: id < before.nextId
    modifies g
    ensures Within(g, from, before, agent, prev) && Grown(old(g.trace), g.trace) && old(g.calls) <= g.calls
    ensures ok ==> g.failed == old(g.failed)
    ensures ok ==> |served| == |decl| && Progress(g.world.agents[agent].triggers, decl, served, listed, groups, prev, before.nextId)
    ensures ok && Injective(prev) ==> Attainable(listed, decl, prev) && NewOnlyIfNeeded(decl, served, listed, groups, before.nextId)
    ensures (force || groups == map[]) && AllDone(g.outcome, old(g.calls)) && Injective(prev) && Attainable(listed, decl, prev) ==> ok
    ensures Injective(prev) && Attainable(listed, decl, prev) && AllMatch(listed, groups, decl) ==>
              g.world == old(g.world) && g.trace == old(g.trace)
  {
    hide WellFormed, OnlyTriggers, ForeignKept, Surviving, OnlyGroup, Progress, GroupClear, GroupIntact, AttainableAt, ServedNamed, GroupNamed, Loaded,
      TriggersMatch, Carries, OwnershipSettled, GroupMatches, StepsFine, NewOnlyIfNeeded, Synced, KeptWherePossible, Grouping;
    served := [];
    ProgressStart(listed, decl, prev, before.nextId);
    for i := 0 to |decl|
      invariant Within(g, from, before, agent, prev) && Grown(old(g.trace), g.trace) && old(g.calls) <= g.calls && g.failed == old(g.failed)
      invariant |served| == i
      invariant Progress(g.world.agents[agent].triggers, decl, served, listed, groups, prev, before.nextId)
      invariant Injective(prev) ==> NewOnlyIfNeeded(decl, served, listed, groups, before.nextId)
      invariant Injective(prev) ==> ServedNamed(g.world.agents[agent].triggers, decl, i, groups)
      invariant Injective(prev) ==> forall k | 0 <= k < i :: AttainableAt(listed, decl, prev, k)
      invariant Injective(prev) && Attainable(listed, decl, prev) && AllMatch(listed, groups, decl) ==>
                  g.world == old(g.world) && g.trace == old(g.trace)
    {
      ghost var cur := g.world.agents[agent].triggers;
      ghost var bound := g.world.nextId;
      GroupReady(cur, decl, served, listed, prev, before.nextId);
      DeclarationLoaded(decl, i);
      ghost var id;
      ok, id := SyncOne(g, agent, decl[i], prev, force, listed, groups, from, before);
      if !ok {
        return;
      }
      ProgressStep(cur, g.world.agents[agent].triggers, decl, served, id, listed, groups, prev, before.nextId, bound);
      if Injective(prev) {
        NewOnlyIfNeededStep(cur, decl, served, id, listed, groups, prev, before.nextId, bound);
        ServedNamedStep(cur, g.world.agents[agent].triggers, decl, i, groups, bound);
      }
      served := served + [id];
    }
    ok := true;
  }

  method SyncTriggers(g: Gateway, agent: Id, decl: seq<TriggerSpec>, prev: map<Id, string>, force: bool)
    returns (ok: bool)
    requires WellFormed(g.world) && agent in g.world.agents && Loaded(decl)
    modifies g
    ensures Within(g, |old(g.trace)|, old(g.world), agent, prev)
    ensures Grown(old(g.trace), g.trace) && old(g.calls) <= g.calls
    ensures ok ==> g.failed == old(g.failed)
    ensures ok ==> Synced(old(g.world.agents[agent].triggers), g.world.agents[agent].triggers, decl, prev, old(g.world.nextId))
    ensures ok && Injective(prev) ==>
              Attainable(old(g.world.agents[agent].triggers), decl, prev) &&
              KeptWherePossible(old(g.world.agents[agent].triggers), g.world.agents[agent].triggers, decl, prev)
    ensures force && AllDone(g.outcome, old(g.calls)) && Injective(prev) ==>
              (ok <==> Attainable(old(g.world.agents[agent].triggers), decl, prev))
    ensures AllDone(g.outcome, old(g.calls)) && old(g.world.agents[agent].triggers) == map[] && prev == map[] ==> ok
    ensures Injective(prev) && TriggersMatch(old(g.world.agents[agent].triggers), decl, prev) ==>
              g.world == old(g.world) && g.trace == old(g.trace)
  {
    hide WellFormed, OnlyTriggers, ForeignKept, Surviving, OnlyGroup, Progress, GroupClear, GroupIntact, Attainable, Injective, ServedNamed, GroupNamed, Loaded,
      TriggersMatch, Carries, OwnershipSettled, GroupMatches, StepsFine, NewOnlyIfNeeded, Synced, KeptWherePossible, Grouping;
    ghost var before := g.world;
    ghost var from := |g.trace|;
    WithinStart(g, agent, prev);
    var listing := g.Read();
    if !listing {
      return false;
    }
    var listed := g.world.agents[agent].triggers;
    if TriggersMatch(listed, decl, prev) {
      MatchIsAttainable(listed, decl, prev);
    }
    NothingOwned(listed, decl, prev);
    var owned, groups := ReconcileOwnership(g, agent, decl, prev, force, listed, from, before);
    if !owned {
      return false;
    }
    GroupedIdsBelow(before, agent, decl, prev);
    ghost var served;
    ok, served := ServeDeclared(g, agent, decl, prev, force, listed, groups, from, before);
    if ok {
      ProgressEnd(g.world.agents[agent].triggers, decl, served, listed, prev, before.nextId);
      if Injective(prev) {
        KeptEnd(g.world.agents[agent].triggers, decl, served, listed, prev, before.nextId);
      }
    }
  }

  lemma NothingOwned(listed: map<Id, TriggerSpec>, decl: seq<TriggerSpec>, prev: map<Id, string>)
    ensures listed == map[] && prev == map[] ==>
              OwnershipSettled(listed, decl, prev) && Grouping(listed, decl, prev, {}) == map[] && Attainable(listed, decl, prev) && Injective(prev)
  {
  }

  lemma DeclarationLoaded(decl: seq<TriggerSpec>, i: nat)
    requires Loaded(decl) && i < |decl|
    ensures decl[i].name != "" && decl[i].timezone != ""
  {
  }

  // ----- Adoption, and when one forced synchronisation passes the final comparison

  ghost predicate AdoptableAs(actual: map<Id, TriggerSpec>, id: Id, t: TriggerSpec) {
    && id in actual && id != 0 && actual[id] == t
    && (forall other | other in actual && actual[other].name == t.name :: other == id)
  }

  /** Ownership that an agent without a stamp yields: the declared triggers found exactly
      once and exactly as declared. */
  ghost function Adopted(actual: map<Id, TriggerSpec>, decl: seq<TriggerSpec>): map<Id, string> {
    map id | id in actual && Adoptable(actual, id, decl) :: actual[id].name
  }

  ghost predicate Adoptable(actual: map<Id, TriggerSpec>, id: Id, decl: seq<TriggerSpec>) {
    exists i | 0 <= i < |decl| :: AdoptableAs(actual, id, decl[i])
  }

  lemma AdoptableStep(actual: map<Id, TriggerSpec>, id: Id, decl: seq<TriggerSpec>, i: nat)
    requires i < |decl|
    ensures Adoptable(actual, id, decl[..i + 1]) <==> Adoptable(actual, id, decl[..i]) || AdoptableAs(actual, id, decl[i])
  {
    hide AdoptableAs;
    var init, next := decl[..i], decl[..i + 1];
    assert next[i] == decl[i] && forall k | 0 <= k < i :: init[k] == next[k];
    if AdoptableAs(actual, id, decl[i]) {
      assert AdoptableAs(actual, id, next[i]);
    }
    if k :| 0 <= k < i && AdoptableAs(actual, id, init[k]) {
      assert AdoptableAs(actual, id, next[k]);
    }
  }

  method AdoptLegacyTriggers(actual: map<Id, TriggerSpec>, decl: seq<TriggerSpec>) returns (adopted: map<Id, string>)
    requires Loaded(decl)
    ensures adopted == Adopted(actual, decl)
  {
    adopted := map[];
    for i := 0 to |decl|
      invariant adopted == Adopted(actual, decl[..i])
    {
      var candidates := set id | id in actual && actual[id].name == decl[i].name;
      assert forall id | id in actual && actual[id].name == decl[i].name :: id in candidates;
      ghost var was := adopted;
      if exists id | id in candidates :: candidates == {id} && id != 0 && actual[id] == decl[i] {
        var id :| id in candidates && candidates == {id} && id != 0 && actual[id] == decl[i];
        assert AdoptableAs(actual, id, decl[i]);
        adopted := adopted[id := decl[i].name];
      }
      AdoptedStep(actual, decl, i, candidates, was, adopted);
    }
    assert decl[..|decl|] == decl;
  }

  lemma AdoptedStep(actual: map<Id, TriggerSpec>, decl: seq<TriggerSpec>, i: nat, candidates: set<Id>,
                    was: map<Id, string>, now: map<Id, string>)
    requires i < |decl| && was == Adopted(actual, decl[..i])
    requires candidates == set id | id in actual && actual[id].name == decl[i].name
    requires if exists id :: AdoptableAs(actual, id, decl[i])
             then exists id :: AdoptableAs(actual, id, decl[i]) && now == was[id := decl[i].name]
             else now == was
    ensures now == Adopted(actual, decl[..i + 1])
  {
    hide Adoptable;
    forall id | id in actual
      ensures Adoptable(actual, id, decl[..i + 1]) <==> Adoptable(actual, id, decl[..i]) || AdoptableAs(actual, id, decl[i])
    {
      AdoptableStep(actual, id, decl, i);
    }
  }

  ghost predicate UniqueNames(actual: map<Id, TriggerSpec>) {
    forall i, j | i in actual && j in actual && actual[i].name == actual[j].name :: i == j
  }

  /** Each declaration has a live recorded trigger that an update can bring to it, and no
      recorded identifier has lost its declaration. */
  ghost predicate OneRunSuffices(listed: map<Id, TriggerSpec>, decl: seq<TriggerSpec>, prev: map<Id, string>) {
    && (forall i | 0 <= i < |decl| :: Updatable(listed, prev, decl[i]))
    && (forall id | id in prev :: Declares(decl, prev[id]))
  }

  ghost predicate Updatable(listed: map<Id, TriggerSpec>, prev: map<Id, string>, t: TriggerSpec) {
    exists id :: id in listed && id in prev && prev[id] == t.name && !NeedsRecreate(listed[id], t)
  }

  /** After a successful synchronisation the comparison against the ownership recorded
      before it succeeds exactly when nothing had to be created, recreated or dropped. */
  lemma MatchAfterSync(listed: map<Id, TriggerSpec>, after: map<Id, TriggerSpec>, decl: seq<TriggerSpec>,
                       prev: map<Id, string>, bound: Id)
    requires UniqueNames(after) && Synced(listed, after, decl, prev, bound) && KeptWherePossible(listed, after, decl, prev)
    requires forall id | id in prev :: id < bound
    ensures TriggersMatch(after, decl, prev) <==> OneRunSuffices(listed, decl, prev)
  {
    hide NeedsRecreate, Declares;
    forall i | 0 <= i < |decl| ensures Served(after, prev, decl[i]) <==> Updatable(listed, prev, decl[i]) {
      assert Carried(after, decl[i], listed, prev, bound);
      var carrier :| Carries(after, carrier, decl[i], listed, prev, bound);
      if Served(after, prev, decl[i]) {
        var id :| Serves(after, prev, id, decl[i]);
        assert id == carrier;
      }
      if Updatable(listed, prev, decl[i]) {
        var id :| id in listed && id in prev && prev[id] == decl[i].name && !NeedsRecreate(listed[id], decl[i]);
        assert id in after && after[id] == decl[i];
        assert Serves(after, prev, id, decl[i]);
      }
    }
  }

  /** After a successful synchronisation an agent without a stamp yields full ownership of
      the declared triggers. */
  lemma AdoptionAfterSync(listed: map<Id, TriggerSpec>, after: map<Id, TriggerSpec>, decl: seq<TriggerSpec>,
                          prev: map<Id, string>, bound: Id)
    requires Loaded(decl) && UniqueNames(after) && 0 !in after && Synced(listed, after, decl, prev, bound)
    ensures Injective(Adopted(after, decl)) && TriggersMatch(after, decl, Adopted(after, decl))
  {
    hide NeedsRecreate;
    var adopted := Adopted(after, decl);
    forall i | 0 <= i < |decl| ensures Served(after, adopted, decl[i]) {
      assert Carried(after, decl[i], listed, prev, bound);
      var id :| Carries(after, id, decl[i], listed, prev, bound);
      assert AdoptableAs(after, id, decl[i]);
      assert Serves(after, adopted, id, decl[i]);
    }
  }

  // ----- Agents that carry no stamp

  /** An agent without a stamp can be synchronised exactly when each of its triggers that
      bears a declared name is as declared. */
  lemma UnstampedAttainable(actual: map<Id, TriggerSpec>, decl: seq<TriggerSpec>)
    requires Loaded(decl) && UniqueNames(actual) && 0 !in actual
    ensures Attainable(actual, decl, Adopted(actual, decl)) <==>
            forall id | id in actual && Declares(decl, actual[id].name) :: actual[id] in decl
  {
    var adopted := Adopted(actual, decl);
    if Attainable(actual, decl, adopted) {
      forall id, i | id in actual && 0 <= i < |decl| && decl[i].name == actual[id].name ensures actual[id] in decl {
        assert AttainableAt(actual, decl, adopted, i);
        var k :| 0 <= k < |decl| && AdoptableAs(actual, id, decl[k]);
      }
    }
    if forall id | id in actual && Declares(decl, actual[id].name) :: actual[id] in decl {
      forall i | 0 <= i < |decl| ensures AttainableAt(actual, decl, adopted, i) {
        forall id | id in actual && actual[id].name == decl[i].name ensures id in adopted {
          assert Declares(decl, actual[id].name);
          var k :| 0 <= k < |decl| && decl[k] == actual[id];
          assert AdoptableAs(actual, id, decl[k]);
        }
      }
    }
  }

  /** An agent without a stamp that cannot be synchronised never can be by deploying again,
      because no deployment touches the trigger in the way. */
  lemma UnstampedStaysStuck(listed: map<Id, TriggerSpec>, after: map<Id, TriggerSpec>, decl: seq<TriggerSpec>)
    requires Loaded(decl) && UniqueNames(listed) && 0 !in listed && UniqueNames(after) && 0 !in after
    requires ForeignKept(listed, after, Adopted(listed, decl)) && !Attainable(listed, decl, Adopted(listed, decl))
    ensures !Attainable(after, decl, Adopted(after, decl))
  {
    UnstampedAttainable(listed, decl);
    UnstampedAttainable(after, decl);
    hide Attainable;
    var id :| id in listed && Declares(decl, listed[id].name) && listed[id] !in decl;
    assert id !in Adopted(listed, decl);
    assert after[id] == listed[id];
  }

  /** A trigger whose declaration was dropped survives a successful synchronisation exactly if
      no ownership of it was recorded. */
  lemma DroppedSurvivesExactly(listed: map<Id, TriggerSpec>, after: map<Id, TriggerSpec>, decl: seq<TriggerSpec>,
                               prev: map<Id, string>, bound: Id, id: Id)
    requires Synced(listed, after, decl, prev, bound) && ForeignKept(listed, after, prev)
    requires id in listed && (id in prev ==> !Declares(decl, prev[id]))
    ensures id in after <==> id !in prev
    ensures id !in prev ==> after[id] == listed[id]
  {
    hide Declares, Carried;
  }

  /** Two triggers that exchanged their names. */
  function Swapped(a: TriggerSpec, b: TriggerSpec): map<Id, TriggerSpec> {
    map[1 := a.(name := b.name), 2 := b.(name := a.name)]
  }

  lemma SwappedUnowned(a: TriggerSpec, b: TriggerSpec)
    requires a.name != b.name && a.schedule != b.schedule
    ensures Adopted(Swapped(a, b), [a, b]) == map[]
  {
    var decl := [a, b];
    assert decl[0] == a && decl[1] == b;
    assert Swapped(a, b)[1] != a && Swapped(a, b)[1] != b && Swapped(a, b)[2] != a && Swapped(a, b)[2] != b;
  }

  lemma SwappedInTheWay(a: TriggerSpec, b: TriggerSpec, prev: map<Id, string>)
    requires prev == map[] || (2 in prev && prev[2] == b.name)
    ensures !Attainable(Swapped(a, b), [a, b], prev)
  {
    var decl := [a, b];
    assert decl[0] == a && decl[1] == b && 2 in Swapped(a, b) && Swapped(a, b)[2].name == decl[0].name;
    assert !AttainableAt(Swapped(a, b), decl, prev, 0);
  }

  /** Two managed triggers that exchanged their names: the service refuses the first rename,
      and once the stamp is gone nobody owns either of them. */
  lemma SwappedNamesAreStuck(a: TriggerSpec, b: TriggerSpec)
    requires a.name != b.name && a.schedule != b.schedule
    ensures var decl, listed, prev := [a, b], Swapped(a, b), map[1 := a.name, 2 := b.name];
            && UniqueNames(listed) && Injective(prev) && (forall id | id in listed :: id in prev)
            && !Attainable(listed, decl, prev)
            && Adopted(listed, decl) == map[] && !Attainable(listed, decl, map[])
  {
    hide Attainable, Adopted;
    SwappedUnowned(a, b);
    SwappedInTheWay(a, b, map[1 := a.name, 2 := b.name]);
    SwappedInTheWay(a, b, map[]);
  }
}
