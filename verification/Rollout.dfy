/** The write phases of a deployment. */
module Rollout {
  import opened Basics
  import opened Fleet
  import opened Triggers
  import opened Links
  import opened Projects
  import opened Deploy

  /** One run: the gateway's trace and the state before its writes, the names of the agents
      it may write to, and the name of its root. */
  datatype Run = Run(earlier: seq<Step>, before: World, names: set<string>, root: string)

  /** Only agents named in `names` differ, and no agent was renamed or removed. */
  ghost predicate Confined(before: World, w: World, names: set<string>) {
    && (forall id | id in before.agents ::
          && id in w.agents && w.agents[id].name == before.agents[id].name
          && (before.agents[id].name !in names ==> w.agents[id] == before.agents[id]))
    && (forall id | id in w.agents :: id in before.agents || w.agents[id].name in names)
    && before.nextId <= w.nextId && w.defaults == before.defaults
  }

  ghost predicate RootQuiet(w: World, root: string) {
    forall id | id in w.agents && w.agents[id].name == root :: w.agents[id].stamp.None?
  }

  /** A state in the middle of the run: the root carries no stamp. */
  ghost predicate Mid(r: Run, w: World) {
    WellFormed(w) && Confined(r.before, w, r.names) && RootQuiet(w, r.root)
  }

  ghost predicate StepsMid(r: Run, trace: seq<Step>) {
    Grown(r.earlier, trace) && forall k | |r.earlier| <= k < |trace| :: Mid(r, trace[k].after)
  }

  ghost predicate InRun(g: Gateway, r: Run)
    reads g
  {
    Mid(r, g.world) && StepsMid(r, g.trace) && Begun(r, g.trace)
  }

  /** A run that finds its root stamped has made a write. */
  ghost predicate Begun(r: Run, trace: seq<Step>) {
    Mid(r, r.before) || |r.earlier| < |trace|
  }

  /** Only the record of agent `id` differs. */
  ghost predicate OneAgent(w: World, w': World, id: Id) {
    && id in w.agents && id in w'.agents
    && w'.agents == w.agents[id := w'.agents[id]] && w'.agents[id].name == w.agents[id].name
    && w.nextId <= w'.nextId && w'.defaults == w.defaults
  }

  lemma MidKept(r: Run, w: World, w': World, id: Id)
    requires Mid(r, w) && OneAgent(w, w', id) && WellFormed(w')
    requires w.agents[id].name in r.names && (w.agents[id].name == r.root ==> w'.agents[id].stamp.None?)
    ensures Mid(r, w')
  {
    hide WellFormed;
  }

  lemma MidCreated(r: Run, w: World, wr: Write)
    requires Mid(r, w) && wr.CreateAgent? && Accepts(w, wr) && wr.name in r.names
    ensures Mid(r, Apply(w, wr))
  {
    ApplyKeepsWellFormed(w, wr);
    CreateIsConfined(w, wr);
    hide WellFormed, Confined;
    ConfinedInto(r.before, w, Apply(w, wr), wr.name, r.names);
  }

  lemma ConfinedInto(before: World, w: World, w': World, name: string, names: set<string>)
    requires Confined(before, w, names) && Confined(w, w', {name}) && name in names
    ensures Confined(before, w', names)
  {
  }

  /** A write to an agent of the run that leaves an unstamped root unstamped. */
  predicate InOrder(r: Run, w: World, wr: Write) {
    match wr
    case CreateAgent(name, _, _) => name in r.names
    case PutAgent(a, _, _, stamp) =>
      a in w.agents && w.agents[a].name in r.names && (w.agents[a].name == r.root ==> stamp.None?)
    case ClearStamp(a, _) => a in w.agents && w.agents[a].name in r.names
    case ActivateRevision(a, _) => a in w.agents && w.agents[a].name in r.names
    case _ => false
  }

  lemma MidAfter(r: Run, w: World, wr: Write)
    requires Mid(r, w) && InOrder(r, w, wr) && Accepts(w, wr)
    ensures Mid(r, Apply(w, wr))
    ensures !wr.CreateAgent? ==> OneAgent(w, Apply(w, wr), wr.agent)
  {
    if wr.CreateAgent? {
      MidCreated(r, w, wr);
    } else {
      ApplyKeepsWellFormed(w, wr);
      assert WellFormed(w);
      hide WellFormed, Confined;
      assert RootQuiet(w, r.root);
      MidKept(r, w, Apply(w, wr), wr.agent);
    }
  }

  lemma OneAgentIsConfined(w: World, w': World, id: Id)
    requires OneAgent(w, w', id)
    ensures Confined(w, w', {w.agents[id].name})
  {
  }

  lemma CreateIsConfined(w: World, wr: Write)
    requires WellFormed(w) && Accepts(w, wr) && wr.CreateAgent?
    ensures Confined(w, Apply(w, wr), {wr.name}) && w.nextId !in w.agents
  {
  }

  lemma ConfinedSelf(w: World, names: set<string>)
    ensures Confined(w, w, names)
  {
  }

  function TargetName(w: World, wr: Write): string
    requires wr.CreateAgent? || wr.agent in w.agents
  {
    if wr.CreateAgent? then wr.name else w.agents[wr.agent].name
  }

  method SendInRun(g: Gateway, wr: Write, ghost r: Run) returns (ok: bool, id: Id)
    requires InRun(g, r) && InOrder(r, g.world, wr)
    modifies g
    ensures InRun(g, r) && g.calls == old(g.calls) + 1 && id == old(g.world.nextId)
    ensures ok ==> g.failed == old(g.failed)
    ensures ok ==> Accepts(old(g.world), wr) && g.world == Apply(old(g.world), wr)
    ensures g.outcome(old(g.calls)) == Done && Accepts(old(g.world), wr) ==> ok
    ensures Confined(old(g.world), g.world, {TargetName(old(g.world), wr)})
  {
    hide WellFormed, Confined, RootQuiet, Apply;
    ConfinedSelf(g.world, {TargetName(g.world, wr)});
    if Accepts(g.world, wr) {
      MidAfter(r, g.world, wr);
      if wr.CreateAgent? {
        CreateIsConfined(g.world, wr);
      } else {
        OneAgentIsConfined(g.world, Apply(g.world, wr), wr.agent);
      }
    }
    ok, id := g.Send(wr);
  }

  // ----- The plan of a mutating run

  ghost function MutatedNames(plan: seq<Entry>): set<string> {
    set i | 0 <= i < |plan| && plan[i].mutate :: plan[i].project.name
  }

  /** The plan after a preflight that found something to write: the root is always among
      the agents to write to. */
  ghost predicate PlanFor(r: Run, plan: seq<Entry>, graph: Graph, force: bool) {
    && LoadedGraph(graph) && WellFormed(r.before)
    && |plan| == |Members(graph)| && AllInspected(r.before, plan, Members(graph), force)
    && plan[0].mutate && (forall i | 1 <= i < |plan| :: plan[i].mutate <==> Unsettled(r.before, plan[i]))
    && r.names == MutatedNames(plan) && r.root == graph.root.name
  }

  /** The facts about one entry of a plan that the phases use. */
  lemma EntryFacts(r: Run, plan: seq<Entry>, graph: Graph, force: bool, i: nat)
    requires PlanFor(r, plan, graph, force) && i < |plan|
    ensures plan[i].project == Members(graph)[i] && plan[i].mode == ModeOf(i) && Loaded(plan[i].project.triggers)
    ensures plan[i].mutate ==> plan[i].project.name in r.names
    ensures plan[i].project.name == r.root <==> i == 0
    ensures match plan[i].existing
            case None => Unused(r.before, plan[i].project.name) && plan[i].prev == map[]
            case Some(id) => id in r.before.agents && r.before.agents[id].name == plan[i].project.name
                             && plan[i].prev == PrevOf(r.before.agents[id], plan[i].project, force)
    ensures forall j | 0 <= j < |plan| && j != i :: plan[j].project.name != plan[i].project.name
  {
    hide WellFormed, Unsettled, Settled, WellStamped, Loaded, PrevOf, Unused;
    assert Inspected(r.before, plan[i], Members(graph)[i], ModeOf(i), force);
    forall j | 0 <= j < |plan| && j != i ensures plan[j].project.name != plan[i].project.name {
      assert Inspected(r.before, plan[j], Members(graph)[j], ModeOf(j), force);
    }
    assert Inspected(r.before, plan[0], Members(graph)[0], ModeOf(0), force);
  }

  // ----- First phase: remove the stamps, the root's before all others

  ghost predicate SameParts(a: Agent, b: Agent) {
    b.name == a.name && b.triggers == a.triggers && b.links == a.links && b.active == a.active
  }

  ghost predicate Cleared(before: World, w: World) {
    w.agents.Keys == before.agents.Keys && forall id | id in before.agents :: SameParts(before.agents[id], w.agents[id])
  }

  method ClearOne(g: Gateway, id: Id, config: map<string, string>, ghost r: Run) returns (ok: bool)
    requires WellFormed(g.world) && StepsMid(r, g.trace)
    requires id in g.world.agents && g.world.agents[id].name in r.names
    requires InRun(g, r) || (g.world == r.before && g.world.agents[id].name == r.root)
    modifies g
    ensures WellFormed(g.world) && StepsMid(r, g.trace) && g.calls == old(g.calls) + 1
    ensures ok ==> g.failed == old(g.failed)
    ensures g.world == r.before || Mid(r, g.world)
    ensures ok ==> InRun(g, r) && g.world == Apply(old(g.world), ClearStamp(id, config))
    ensures g.outcome(old(g.calls)) == Done ==> ok
  {
    hide WellFormed, Confined, RootQuiet;
    var wr := ClearStamp(id, config);
    if InRun(g, r) {
      MidAfter(r, g.world, wr);
    } else {
      FirstClear(r, id, config);
    }
    var reply;
    ok, reply := g.Send(wr);
  }

  /** Before its first write the run is not yet in the middle; removing the root's stamp
      takes it there. */
  lemma FirstClear(r: Run, id: Id, config: map<string, string>)
    requires WellFormed(r.before) && id in r.before.agents && r.before.agents[id].name == r.root && r.root in r.names
    ensures Mid(r, Apply(r.before, ClearStamp(id, config)))
  {
    var w' := Apply(r.before, ClearStamp(id, config));
    ApplyKeepsWellFormed(r.before, ClearStamp(id, config));
    OnlyOneNamed(r.before, id);
    ConfinedSelf(r.before, r.names);
    assert OneAgent(r.before, w', id);
    OneAgentIsConfined(r.before, w', id);
    hide WellFormed, Confined;
    ConfinedInto(r.before, r.before, w', r.root, r.names);
    assert RootQuiet(w', r.root);
  }

  lemma OnlyOneNamed(w: World, id: Id)
    requires WellFormed(w) && id in w.agents
    ensures forall other | other in w.agents && w.agents[other].name == w.agents[id].name :: other == id
  {
  }

  lemma ClearKeepsCleared(before: World, w: World, id: Id, config: map<string, string>)
    requires Cleared(before, w) && id in w.agents
    ensures Cleared(before, Apply(w, ClearStamp(id, config)))
  {
  }

  lemma NoRootToClear(r: Run, plan: seq<Entry>, graph: Graph, force: bool)
    requires PlanFor(r, plan, graph, force) && plan[0].existing.None?
    ensures Mid(r, r.before)
  {
    EntryFacts(r, plan, graph, force, 0);
    hide WellFormed, AllInspected, Loaded;
  }

  method Invalidate(g: Gateway, plan: seq<Entry>, ghost r: Run, ghost graph: Graph, ghost force: bool) returns (ok: bool)
    requires PlanFor(r, plan, graph, force) && g.world == r.before && r.earlier == g.trace
    modifies g
    ensures WellFormed(g.world) && StepsMid(r, g.trace) && old(g.calls) <= g.calls
    ensures ok ==> g.failed == old(g.failed)
    ensures g.world == r.before || Mid(r, g.world)
    ensures ok ==> InRun(g, r) && Cleared(r.before, g.world)
    ensures AllDone(g.outcome, old(g.calls)) ==> ok
  {
    hide WellFormed, Confined, RootQuiet, AllInspected, Loaded, Unsettled, PlanFor, PrevOf, Unused, Cleared, Apply;
    assert WellFormed(g.world) && plan != [] && plan[0].mutate by { PlanBasics(r, plan, graph, force); }
    ClearedStart(r.before);
    for i := 0 to |plan|
      invariant WellFormed(g.world) && StepsMid(r, g.trace) && old(g.calls) <= g.calls && g.failed == old(g.failed)
      invariant Cleared(r.before, g.world)
      invariant if i == 0 then g.world == r.before else InRun(g, r)
    {
      EntryFacts(r, plan, graph, force, i);
      if plan[i].existing.None? || !plan[i].mutate {
        if i == 0 {
          NoRootToClear(r, plan, graph, force);
        }
      } else {
        var id := plan[i].existing.value;
        ghost var w := g.world;
        ClearedHas(r.before, w, id);
        var sent := ClearOne(g, id, plan[i].project.definition.config, r);
        if !sent {
          return false;
        }
        ClearKeepsCleared(r.before, w, id, plan[i].project.definition.config);
      }
    }
    ok := true;
  }

  lemma PlanBasics(r: Run, plan: seq<Entry>, graph: Graph, force: bool)
    requires PlanFor(r, plan, graph, force)
    ensures WellFormed(r.before) && |plan| == |Members(graph)| >= 1 && plan[0].mutate
  {
  }

  lemma ClearedStart(w: World)
    ensures Cleared(w, w)
  {
  }

  lemma ClearedHas(before: World, w: World, id: Id)
    requires Cleared(before, w) && id in before.agents
    ensures id in w.agents && SameParts(before.agents[id], w.agents[id])
  {
  }

  // ----- Progress of one entry through the phases

  ghost function OldTriggers(r: Run, e: Entry): map<Id, TriggerSpec> {
    if e.existing.Some? && e.existing.value in r.before.agents then r.before.agents[e.existing.value].triggers else map[]
  }

  ghost function OldLinks(r: Run, e: Entry): seq<Link> {
    if e.existing.Some? && e.existing.value in r.before.agents then r.before.agents[e.existing.value].links else []
  }

  /** What a synchronisation made of the triggers that the run found. */
  ghost predicate SyncDone(r: Run, e: Entry, triggers: map<Id, TriggerSpec>) {
    && Synced(OldTriggers(r, e), triggers, e.project.triggers, e.prev, r.before.nextId)
    && (Injective(e.prev) ==>
          && Attainable(OldTriggers(r, e), e.project.triggers, e.prev)
          && KeptWherePossible(OldTriggers(r, e), triggers, e.project.triggers, e.prev))
  }

  /** A new agent of this definition is read back as it was sent. */
  ghost predicate Settable(defaults: Limits, e: Entry) {
    e.existing.None? ==> NewDefinition(e.project.definition, defaults) == e.project.definition
  }

  datatype Phase = DefinitionsDone | RevisionsDone | TriggersDone | LinksDone

  ghost predicate Stage(r: Run, w: World, e: Entry, phase: Phase) {
    && e.agent in w.agents && w.agents[e.agent].name == e.project.name
    && (if e.existing.Some? then e.agent == e.existing.value else e.mutate && r.before.nextId <= e.agent)
    && (e.mutate ==>
          var a := w.agents[e.agent];
          && AgentMatches(a, e.project, e.mode, false) && Settable(r.before.defaults, e)
          && (!phase.DefinitionsDone? ==> a.active == Some(e.project.digest))
          && (if phase.TriggersDone? || phase.LinksDone? then SyncDone(r, e, a.triggers) else a.triggers == OldTriggers(r, e))
          && (!phase.LinksDone? ==> a.links == OldLinks(r, e)))
  }

  /** An entry that no phase but the first has touched. */
  ghost predicate Pending(r: Run, w: World, e: Entry) {
    match e.existing
    case None => Unused(w, e.project.name)
    case Some(id) => id in w.agents && id in r.before.agents && SameParts(r.before.agents[id], w.agents[id])
                     && w.agents[id].name == e.project.name
  }

  lemma StageKept(r: Run, w: World, w': World, e: Entry, phase: Phase, name: string)
    requires Stage(r, w, e, phase) && Confined(w, w', {name}) && e.project.name != name
    ensures Stage(r, w', e, phase)
  {
    assert w'.agents[e.agent] == w.agents[e.agent];
  }

  lemma PendingKept(r: Run, w: World, w': World, e: Entry, name: string)
    requires Pending(r, w, e) && Confined(w, w', {name}) && e.project.name != name
    ensures Pending(r, w', e)
  {
  }

  // ----- Second phase: definitions

  lemma MidDefaults(r: Run, w: World)
    requires Mid(r, w)
    ensures w.defaults == r.before.defaults && r.before.nextId <= w.nextId
  {
  }

  method ConvergeOne(g: Gateway, e: Entry, ghost r: Run) returns (ok: bool, agent: Id)
    requires InRun(g, r) && Pending(r, g.world, e)
    requires e.mutate ==> e.project.name in r.names
    requires !e.mutate ==> e.existing.Some?
    modifies g
    ensures InRun(g, r) && old(g.calls) <= g.calls
    ensures ok ==> g.failed == old(g.failed)
    ensures Confined(old(g.world), g.world, {e.project.name})
    ensures ok ==> Stage(r, g.world, e.(agent := agent), DefinitionsDone)
    ensures AllDone(g.outcome, old(g.calls)) && Settable(r.before.defaults, e) ==> ok
  {
    hide WellFormed, Confined, RootQuiet, StepsMid;
    agent := 0;
    MidDefaults(r, g.world);
    ConfinedSelf(g.world, {e.project.name});
    if !e.mutate {
      return true, e.existing.value;
    }
    var wr, sent;
    if e.existing.None? {
      wr := CreateAgent(e.project.name, e.mode, e.project.definition);
      sent, agent := SendInRun(g, wr, r);
    } else {
      agent := e.existing.value;
      wr := PutAgent(agent, e.mode, e.project.definition, None);
      var reply;
      sent, reply := SendInRun(g, wr, r);
    }
    if !sent {
      return false, agent;
    }
    var wait := g.Read();
    ok := wait && AgentMatches(g.world.agents[agent], e.project, e.mode, false);
  }

  /** The facts about a plan that every later phase uses. */
  ghost predicate Workable(r: Run, plan: seq<Entry>) {
    && plan != [] && plan[0].mutate && plan[0].project.name == r.root
    && (forall i | 0 <= i < |plan| ::
          Loaded(plan[i].project.triggers) && (plan[i].mutate ==> plan[i].project.name in r.names))
    && (forall i, j | 0 <= i < j < |plan| :: plan[i].project.name != plan[j].project.name)
  }

  /** The same plan with the agents to work on filled in. */
  ghost predicate SamePlan(plan: seq<Entry>, plan': seq<Entry>) {
    |plan'| == |plan| && forall i | 0 <= i < |plan| :: plan'[i] == plan[i].(agent := plan'[i].agent, managed := plan'[i].managed)
  }

  lemma SamePlanIsWorkable(r: Run, plan: seq<Entry>, plan': seq<Entry>)
    requires SamePlan(plan, plan') && Workable(r, plan)
    ensures Workable(r, plan')
  {
    hide Loaded;
    assert plan'[0].mutate == plan[0].mutate;
    forall i | 0 <= i < |plan'|
      ensures Loaded(plan'[i].project.triggers) && (plan'[i].mutate ==> plan'[i].project.name in r.names)
    {
      assert plan'[i].project == plan[i].project;
    }
    forall i, j | 0 <= i < j < |plan'| ensures plan'[i].project.name != plan'[j].project.name {
      assert plan'[i].project == plan[i].project && plan'[j].project == plan[j].project;
    }
  }

  ghost predicate AllStages(r: Run, w: World, plan: seq<Entry>, to: nat, phase: Phase)
    requires to <= |plan|
  {
    forall i | 0 <= i < to :: Stage(r, w, plan[i], phase)
  }

  ghost predicate AllPending(r: Run, w: World, plan: seq<Entry>, from: nat) {
    forall i | from <= i < |plan| :: Pending(r, w, plan[i])
  }

  lemma OthersKept(r: Run, w: World, w': World, plan: seq<Entry>, plan': seq<Entry>, i: nat)
    requires Workable(r, plan) && i < |plan| <= |plan'| && Confined(w, w', {plan[i].project.name})
    requires forall j | 0 <= j < i :: plan'[j].project == plan[j].project
    requires AllStages(r, w, plan', i, DefinitionsDone) && AllPending(r, w, plan, i + 1)
    ensures AllStages(r, w', plan', i, DefinitionsDone) && AllPending(r, w', plan, i + 1)
  {
    hide Stage, Pending, Confined, Loaded;
    forall j | 0 <= j < i ensures Stage(r, w', plan'[j], DefinitionsDone) {
      StageKept(r, w, w', plan'[j], DefinitionsDone, plan[i].project.name);
    }
    forall j | i + 1 <= j < |plan| ensures Pending(r, w', plan[j]) {
      PendingKept(r, w, w', plan[j], plan[i].project.name);
    }
  }

  method ConvergeAll(g: Gateway, plan: seq<Entry>, ghost r: Run) returns (ok: bool, done: seq<Entry>)
    requires InRun(g, r) && Workable(r, plan) && AllPending(r, g.world, plan, 0)
    requires forall i | 0 <= i < |plan| && !plan[i].mutate :: plan[i].existing.Some?
    modifies g
    ensures InRun(g, r) && old(g.calls) <= g.calls
    ensures ok ==> g.failed == old(g.failed)
    ensures ok ==> SamePlan(plan, done) && AllStages(r, g.world, done, |done|, DefinitionsDone)
    ensures AllDone(g.outcome, old(g.calls)) && (forall i | 0 <= i < |plan| :: Settable(r.before.defaults, plan[i])) ==> ok
  {
    hide Mid, StepsMid, Stage, Pending, Settable, Confined, Loaded;
    done := plan;
    for i := 0 to |plan|
      invariant InRun(g, r) && old(g.calls) <= g.calls && g.failed == old(g.failed)
      invariant |done| == |plan| && forall j | i <= j < |plan| :: done[j] == plan[j]
      invariant forall j | 0 <= j < i :: done[j] == plan[j].(agent := done[j].agent)
      invariant AllStages(r, g.world, done, i, DefinitionsDone) && AllPending(r, g.world, plan, i)
    {
      ghost var w := g.world;
      var converged, agent := ConvergeOne(g, plan[i], r);
      if !converged {
        return false, done;
      }
      OthersKept(r, w, g.world, plan, done, i);
      done := done[i := plan[i].(agent := agent)];
    }
    ok := true;
  }

  // ----- Third phase: revisions

  method ActivateOne(g: Gateway, e: Entry, ghost r: Run) returns (ok: bool)
    requires InRun(g, r) && Stage(r, g.world, e, DefinitionsDone) && e.mutate && e.project.name in r.names
    modifies g
    ensures InRun(g, r) && old(g.calls) <= g.calls
    ensures ok ==> g.failed == old(g.failed)
    ensures Confined(old(g.world), g.world, {e.project.name})
    ensures ok ==> Stage(r, g.world, e, RevisionsDone)
    ensures AllDone(g.outcome, old(g.calls)) ==> ok
  {
    hide Mid, StepsMid, Confined;
    var reply;
    ok, reply := SendInRun(g, ActivateRevision(e.agent, e.project.digest), r);
  }

  lemma PhaseKept(r: Run, w: World, w': World, plan: seq<Entry>, i: nat, before: Phase, after: Phase)
    requires Workable(r, plan) && i < |plan| && Confined(w, w', {plan[i].project.name})
    requires AllStages(r, w, plan, i, after) && forall j | i <= j < |plan| :: Stage(r, w, plan[j], before)
    ensures AllStages(r, w', plan, i, after) && forall j | i + 1 <= j < |plan| :: Stage(r, w', plan[j], before)
  {
    hide Stage, Confined, Loaded;
    forall j | 0 <= j < i ensures Stage(r, w', plan[j], after) {
      StageKept(r, w, w', plan[j], after, plan[i].project.name);
    }
    forall j | i + 1 <= j < |plan| ensures Stage(r, w', plan[j], before) {
      StageKept(r, w, w', plan[j], before, plan[i].project.name);
    }
  }

  /** An entry without writes is at every stage it is at any. */
  lemma UnmutatedStage(r: Run, w: World, e: Entry, before: Phase, after: Phase)
    requires Stage(r, w, e, before) && !e.mutate
    ensures Stage(r, w, e, after)
  {
  }

  method ActivateAll(g: Gateway, plan: seq<Entry>, ghost r: Run) returns (ok: bool)
    requires InRun(g, r) && Workable(r, plan) && AllStages(r, g.world, plan, |plan|, DefinitionsDone)
    modifies g
    ensures InRun(g, r) && old(g.calls) <= g.calls
    ensures ok ==> g.failed == old(g.failed)
    ensures ok ==> AllStages(r, g.world, plan, |plan|, RevisionsDone)
    ensures AllDone(g.outcome, old(g.calls)) ==> ok
  {
    hide Mid, StepsMid, Stage, Confined, Loaded;
    for i := 0 to |plan|
      invariant InRun(g, r) && old(g.calls) <= g.calls && g.failed == old(g.failed)
      invariant AllStages(r, g.world, plan, i, RevisionsDone)
      invariant forall j | i <= j < |plan| :: Stage(r, g.world, plan[j], DefinitionsDone)
    {
      ghost var w := g.world;
      if plan[i].mutate {
        var activated := ActivateOne(g, plan[i], r);
        if !activated {
          return false;
        }
        PhaseKept(r, w, g.world, plan, i, DefinitionsDone, RevisionsDone);
      } else {
        UnmutatedStage(r, w, plan[i], DefinitionsDone, RevisionsDone);
      }
    }
    ok := true;
  }

  // ----- Fourth phase: triggers

  lemma TriggersInRun(r: Run, w: World, w': World, agent: Id)
    requires Mid(r, w) && OnlyTriggers(w, w', agent) && WellFormed(w') && w.agents[agent].name in r.names
    ensures Mid(r, w') && Confined(w, w', {w.agents[agent].name})
  {
    hide WellFormed, Confined;
    assert OneAgent(w, w', agent);
    if w.agents[agent].name == r.root {
      assert w.agents[agent].stamp.None?;
    }
    MidKept(r, w, w', agent);
    OneAgentIsConfined(w, w', agent);
  }

  lemma SyncedFromEarlier(listed: map<Id, TriggerSpec>, after: map<Id, TriggerSpec>, decl: seq<TriggerSpec>,
                          prev: map<Id, string>, bound: Id, earlier: Id)
    requires Synced(listed, after, decl, prev, bound) && earlier <= bound
    ensures Synced(listed, after, decl, prev, earlier)
  {
    hide NeedsRecreate, Declares;
    forall i | 0 <= i < |decl| ensures Carried(after, decl[i], listed, prev, earlier) {
      assert Carried(after, decl[i], listed, prev, bound);
      var id :| Carries(after, id, decl[i], listed, prev, bound);
      assert Carries(after, id, decl[i], listed, prev, earlier);
    }
  }

  lemma TriggerStepsInRun(r: Run, w: World, earlier: seq<Step>, trace: seq<Step>, agent: Id, prev: map<Id, string>)
    requires Mid(r, w) && agent in w.agents && w.agents[agent].name in r.names
    requires StepsMid(r, earlier) && Grown(earlier, trace) && StepsFine(trace, |earlier|, w, agent, prev)
    ensures StepsMid(r, trace)
  {
    hide Mid, WellFormed, OnlyTriggers, ForeignKept;
    forall k | |r.earlier| <= k < |trace| ensures Mid(r, trace[k].after) {
      if k < |earlier| {
        assert trace[k] == earlier[k];
      } else {
        assert StepFine(w, trace[k], agent, prev);
        TriggersInRun(r, w, trace[k].after, agent);
      }
    }
  }

  lemma TriggersSyncedStage(r: Run, w: World, w': World, e: Entry, bound: Id)
    requires Stage(r, w, e, RevisionsDone) && e.mutate && OnlyTriggers(w, w', e.agent)
    requires r.before.nextId <= bound
    requires Synced(OldTriggers(r, e), w'.agents[e.agent].triggers, e.project.triggers, e.prev, bound)
    requires Injective(e.prev) ==>
               && Attainable(OldTriggers(r, e), e.project.triggers, e.prev)
               && KeptWherePossible(OldTriggers(r, e), w'.agents[e.agent].triggers, e.project.triggers, e.prev)
    ensures Stage(r, w', e, TriggersDone)
  {
    hide Synced, Attainable, KeptWherePossible, Injective;
    SyncedFromEarlier(OldTriggers(r, e), w'.agents[e.agent].triggers, e.project.triggers, e.prev, bound, r.before.nextId);
  }

  method SyncEntry(g: Gateway, e: Entry, force: bool, ghost r: Run) returns (ok: bool)
    requires InRun(g, r) && Stage(r, g.world, e, RevisionsDone) && e.mutate && e.project.name in r.names
    requires Loaded(e.project.triggers)
    modifies g
    ensures InRun(g, r) && old(g.calls) <= g.calls
    ensures ok ==> g.failed == old(g.failed)
    ensures Confined(old(g.world), g.world, {e.project.name})
    ensures ok ==> Stage(r, g.world, e, TriggersDone)
    ensures force && AllDone(g.outcome, old(g.calls)) && Injective(e.prev) ==>
              Attainable(OldTriggers(r, e), e.project.triggers, e.prev) ==> ok
    ensures e.existing.None? && e.prev == map[] && AllDone(g.outcome, old(g.calls)) ==> ok
  {
    hide WellFormed, Confined, RootQuiet, StepsMid, StepsFine, OnlyTriggers, ForeignKept, Attainable, Injective, Synced,
      KeptWherePossible, TriggersMatch, Loaded;
    ghost var w := g.world;
    ghost var t := g.trace;
    BoundGrows(r, w);
    ok := SyncTriggers(g, e.agent, e.project.triggers, e.prev, force);
    TriggersInRun(r, w, g.world, e.agent);
    TriggerStepsInRun(r, w, t, g.trace, e.agent, e.prev);
    if ok {
      TriggersSyncedStage(r, w, g.world, e, w.nextId);
    }
  }

  lemma BoundGrows(r: Run, w: World)
    requires Mid(r, w)
    ensures r.before.nextId <= w.nextId
  {
  }

  /** Every agent that is written to has usable ownership and attainable declarations. */
  ghost predicate AllAttainable(r: Run, plan: seq<Entry>) {
    forall i | 0 <= i < |plan| && plan[i].mutate ::
      Injective(plan[i].prev) && Attainable(OldTriggers(r, plan[i]), plan[i].project.triggers, plan[i].prev)
  }

  /** Every agent that is written to is a new one. */
  ghost predicate AllFresh(plan: seq<Entry>) {
    forall i | 0 <= i < |plan| && plan[i].mutate :: plan[i].existing.None? && plan[i].prev == map[]
  }

  method SyncAll(g: Gateway, plan: seq<Entry>, force: bool, ghost r: Run) returns (ok: bool)
    requires InRun(g, r) && Workable(r, plan) && AllStages(r, g.world, plan, |plan|, RevisionsDone)
    modifies g
    ensures InRun(g, r) && old(g.calls) <= g.calls
    ensures ok ==> g.failed == old(g.failed)
    ensures ok ==> AllStages(r, g.world, plan, |plan|, TriggersDone)
    ensures force && AllDone(g.outcome, old(g.calls)) && AllAttainable(r, plan) ==> ok
    ensures AllDone(g.outcome, old(g.calls)) && AllFresh(plan) ==> ok
  {
    hide Mid, StepsMid, Stage, Confined, Loaded, Attainable, Injective, OldTriggers;
    for i := 0 to |plan|
      invariant InRun(g, r) && old(g.calls) <= g.calls && g.failed == old(g.failed)
      invariant AllStages(r, g.world, plan, i, TriggersDone)
      invariant forall j | i <= j < |plan| :: Stage(r, g.world, plan[j], RevisionsDone)
    {
      ghost var w := g.world;
      if plan[i].mutate {
        var synced := SyncEntry(g, plan[i], force, r);
        if !synced {
          return false;
        }
        PhaseKept(r, w, g.world, plan, i, RevisionsDone, TriggersDone);
      } else {
        UnmutatedStage(r, w, plan[i], RevisionsDone, TriggersDone);
      }
    }
    ok := true;
  }

  // ----- Fifth phase: links

  ghost function ChildIds(plan: seq<Entry>): set<Id> {
    set i | 1 <= i < |plan| :: plan[i].agent
  }

  lemma LinksInRun(r: Run, w: World, w': World, root: Id)
    requires Mid(r, w) && OnlyLinks(w, w', root) && WellFormed(w') && w.agents[root].name in r.names
    ensures Mid(r, w') && Confined(w, w', {w.agents[root].name})
  {
    hide WellFormed, Confined;
    assert OneAgent(w, w', root);
    MidKept(r, w, w', root);
    OneAgentIsConfined(w, w', root);
  }

  lemma LinkStepsInRun(r: Run, w: World, earlier: seq<Step>, trace: seq<Step>, root: Id)
    requires Mid(r, w) && root in w.agents && w.agents[root].name in r.names
    requires StepsMid(r, earlier) && |earlier| <= |trace| && trace[..|earlier|] == earlier
    requires LinkStepsFine(trace, |earlier|, w, root)
    ensures StepsMid(r, trace)
  {
    hide Mid, WellFormed, OnlyLinks;
    forall k | |r.earlier| <= k < |trace| ensures Mid(r, trace[k].after) {
      if k < |earlier| {
        assert trace[k] == earlier[k];
      } else {
        LinksInRun(r, w, trace[k].after, root);
      }
    }
  }

  lemma LinksKeepStages(r: Run, w: World, w': World, plan: seq<Entry>)
    requires Workable(r, plan) && AllStages(r, w, plan, |plan|, TriggersDone)
    requires OnlyLinks(w, w', plan[0].agent)
    ensures AllStages(r, w', plan, |plan|, LinksDone)
  {
    hide SyncDone, AgentMatches, OldTriggers, Settable;
    forall i | 0 <= i < |plan| ensures Stage(r, w', plan[i], LinksDone) {
      assert Stage(r, w, plan[i], TriggersDone);
      var a, a' := w.agents[plan[i].agent], w'.agents[plan[i].agent];
      assert a' == a.(links := a'.links);
      AgentMatchesIgnoresLinks(a, a'.links, plan[i].project, plan[i].mode);
    }
  }

  lemma AgentMatchesIgnoresLinks(a: Agent, links: seq<Link>, p: Project, mode: Mode)
    ensures AgentMatches(a.(links := links), p, mode, false) <==> AgentMatches(a, p, mode, false)
  {
  }

  method LinkRoot(g: Gateway, plan: seq<Entry>, force: bool, ghost r: Run) returns (ok: bool)
    requires InRun(g, r) && Workable(r, plan) && AllStages(r, g.world, plan, |plan|, TriggersDone)
    modifies g
    ensures InRun(g, r) && old(g.calls) <= g.calls
    ensures ok ==> g.failed == old(g.failed)
    ensures ok ==> AllStages(r, g.world, plan, |plan|, LinksDone)
    ensures ok ==> plan[0].agent in g.world.agents
    ensures ok ==> (LinksMatch(g.world.agents[plan[0].agent].links, ChildIds(plan)) <==> AllLinkable(OldLinks(r, plan[0]), ChildIds(plan)))
    ensures (force || plan[0].existing.None?) && AllDone(g.outcome, old(g.calls)) ==> ok
  {
    hide WellFormed, Confined, RootQuiet, StepsMid, LinkStepsFine, LinksMatch, AllLinkable, Stage, Loaded, OnlyLinks;
    ghost var w := g.world;
    ghost var t := g.trace;
    RootHasOldLinks(r, w, plan);
    ChildrenAreIssued(r, w, plan);
    var children := set i | 1 <= i < |plan| :: plan[i].agent;
    assert children == ChildIds(plan);
    ok := SyncSubagentLinks(g, plan[0].agent, children, force);
    LinksInRun(r, w, g.world, plan[0].agent);
    LinkStepsInRun(r, w, t, g.trace, plan[0].agent);
    LinksKeepStages(r, w, g.world, plan);
  }

  lemma RootHasOldLinks(r: Run, w: World, plan: seq<Entry>)
    requires Workable(r, plan) && AllStages(r, w, plan, |plan|, TriggersDone)
    ensures plan[0].agent in w.agents && w.agents[plan[0].agent].name == plan[0].project.name == r.root && r.root in r.names
    ensures w.agents[plan[0].agent].links == OldLinks(r, plan[0])
  {
    hide SyncDone, AgentMatches;
    assert Stage(r, w, plan[0], TriggersDone);
  }

  lemma ChildrenAreIssued(r: Run, w: World, plan: seq<Entry>)
    requires Mid(r, w) && AllStages(r, w, plan, |plan|, TriggersDone)
    ensures forall id | id in ChildIds(plan) :: id < w.nextId
  {
    hide Confined, RootQuiet, SyncDone, AgentMatches, AgentOk;
    forall i | 1 <= i < |plan| ensures plan[i].agent < w.nextId {
      assert Stage(r, w, plan[i], TriggersDone);
    }
  }

  lemma StagedExists(r: Run, w: World, e: Entry, phase: Phase)
    requires Stage(r, w, e, phase)
    ensures e.agent in w.agents && w.agents[e.agent].name == e.project.name
  {
  }

  // ----- Sixth phase: verification

  method RecordManaged(actual: map<Id, TriggerSpec>, decl: seq<TriggerSpec>) returns (ok: bool, managed: map<Id, string>)
    ensures ok ==> Records(actual, decl, managed)
    ensures 0 !in actual && UniqueNames(actual) && (forall i | 0 <= i < |decl| :: decl[i] in actual.Values) ==> ok
  {
    managed := map[];
    for i := 0 to |decl|
      invariant Records(actual, decl[..i], managed)
    {
      var named := set id | id in actual && actual[id].name == decl[i].name;
      if exists id | id in named :: named == {id} && id != 0 {
        var id :| id in named && named == {id} && id != 0;
        ghost var earlier := managed;
        managed := managed[id := decl[i].name];
        RecordsStep(actual, decl, i, earlier, id);
      } else {
        NamedOnce(actual, decl[i], named);
        return false, managed;
      }
    }
    assert decl[..|decl|] == decl;
    ok := true;
  }

  lemma NamedOnce(actual: map<Id, TriggerSpec>, t: TriggerSpec, named: set<Id>)
    requires named == set id | id in actual && actual[id].name == t.name
    ensures 0 !in actual && UniqueNames(actual) && t in actual.Values ==> exists id | id in named :: named == {id} && id != 0
  {
    if 0 !in actual && UniqueNames(actual) && t in actual.Values {
      var id :| id in actual && actual[id] == t;
      assert id in named && named == {id};
    }
  }

  lemma RecordsStep(actual: map<Id, TriggerSpec>, decl: seq<TriggerSpec>, i: nat, managed: map<Id, string>, id: Id)
    requires i < |decl| && Records(actual, decl[..i], managed)
    requires id != 0 && id in actual && actual[id].name == decl[i].name
    ensures Records(actual, decl[..i + 1], managed[id := decl[i].name])
  {
    var managed' := managed[id := decl[i].name];
    var next := decl[..i + 1];
    forall k | 0 <= k < |next| ensures next[k].name in managed'.Values {
      if k < i {
        assert decl[..i][k].name in managed.Values;
        var j :| j in managed && managed[j] == decl[k].name;
        assert j in managed' && managed'[j] == decl[k].name;
      } else {
        assert id in managed' && managed'[id] == decl[i].name;
      }
    }
  }

  ghost predicate Verified(w: World, e: Entry) {
    && e.agent in w.agents
    && w.agents[e.agent].active == Some(e.project.digest)
    && TriggersMatch(w.agents[e.agent].triggers, e.project.triggers, e.prev)
    && Records(w.agents[e.agent].triggers, e.project.triggers, e.managed)
  }

  /** The state in which verification passes. */
  ghost predicate Verifiable(w: World, e: Entry) {
    && e.agent in w.agents
    && w.agents[e.agent].active == Some(e.project.digest)
    && Injective(e.prev) && TriggersMatch(w.agents[e.agent].triggers, e.project.triggers, e.prev)
  }

  method VerifyOne(g: Gateway, e: Entry) returns (ok: bool, managed: map<Id, string>)
    requires WellFormed(g.world) && e.agent in g.world.agents && 0 !in e.prev
    modifies g`calls, g`failed
    ensures old(g.calls) <= g.calls
    ensures ok ==> g.failed == old(g.failed)
    ensures ok ==> Verified(g.world, e.(managed := managed))
    ensures AllDone(g.outcome, old(g.calls)) && Verifiable(g.world, e) ==> ok
  {
    hide TriggersMatch, Records, WellFormed, UniqueNames;
    managed := map[];
    var a := g.world.agents[e.agent];
    var revision := g.Read();
    if !revision || a.active != Some(e.project.digest) {
      return false, managed;
    }
    var listing := g.Read();
    if !listing {
      return false, managed;
    }
    var matches := DeclaredTriggersMatch(a.triggers, e.project.triggers, e.prev);
    if !matches {
      return false, managed;
    }
    MatchedTriggersAreRecordable(g.world, e.agent, e.project.triggers, e.prev);
    ok, managed := RecordManaged(a.triggers, e.project.triggers);
  }

  lemma MatchedTriggersAreRecordable(w: World, agent: Id, decl: seq<TriggerSpec>, prev: map<Id, string>)
    requires WellFormed(w) && agent in w.agents && TriggersMatch(w.agents[agent].triggers, decl, prev)
    ensures 0 !in w.agents[agent].triggers && UniqueNames(w.agents[agent].triggers)
    ensures forall i | 0 <= i < |decl| :: decl[i] in w.agents[agent].triggers.Values
  {
    assert AgentOk(w.agents[agent], w.nextId);
    forall i | 0 <= i < |decl| ensures decl[i] in w.agents[agent].triggers.Values {
      assert Served(w.agents[agent].triggers, prev, decl[i]);
    }
  }

  method VerifyAll(g: Gateway, plan: seq<Entry>) returns (ok: bool, verified: seq<Entry>)
    requires WellFormed(g.world) && plan != []
    requires forall i | 0 <= i < |plan| :: plan[i].agent in g.world.agents && 0 !in plan[i].prev
    modifies g`calls, g`failed
    ensures old(g.calls) <= g.calls
    ensures ok ==> g.failed == old(g.failed)
    ensures ok ==> SamePlan(plan, verified) && (forall i | 0 <= i < |plan| ::
                     verified[i].agent == plan[i].agent && Verified(g.world, verified[i]))
    ensures ok ==> LinksMatch(g.world.agents[plan[0].agent].links, ChildIds(plan))
    ensures AllDone(g.outcome, old(g.calls)) && (forall i | 0 <= i < |plan| :: Verifiable(g.world, plan[i])) ==>
              LinksMatch(g.world.agents[plan[0].agent].links, ChildIds(plan)) ==> ok
  {
    hide WellFormed, Verified, Verifiable, LinksMatch;
    verified := plan;
    for i := 0 to |plan|
      invariant old(g.calls) <= g.calls && g.failed == old(g.failed)
      invariant |verified| == |plan| && forall j | i <= j < |plan| :: verified[j] == plan[j]
      invariant forall j | 0 <= j < i :: verified[j] == plan[j].(managed := verified[j].managed) && Verified(g.world, verified[j])
    {
      var passed, managed := VerifyOne(g, plan[i]);
      if !passed {
        return false, verified;
      }
      verified := verified[i := plan[i].(managed := managed)];
    }
    var listing := g.Read();
    if !listing {
      return false, verified;
    }
    var children := set i | 1 <= i < |plan| :: plan[i].agent;
    ok := SubordinateLinksMatch(g.world.agents[plan[0].agent].links, children);
  }

  // ----- Seventh phase: stamps, the children's before the root's

  ghost predicate Final(w: World, e: Entry) {
    && e.agent in w.agents && Settled(w.agents[e.agent], e.project, e.mode)
    && (e.mutate ==> WellStamped(w.agents[e.agent].stamp))
  }

  /** Verified, and settled already if the run does not write to it. */
  ghost predicate Stampable(w: World, e: Entry) {
    && e.agent in w.agents && w.agents[e.agent].name == e.project.name
    && (if e.mutate then Verified(w, e) else Final(w, e))
  }

  lemma StampedIsFinal(w: World, e: Entry, entries: seq<ManagedEntry>, now: int)
    requires Stampable(w, e) && e.mutate && Loaded(e.project.triggers) && e.project.hash != ""
    requires |entries| == |e.project.triggers|
    requires forall i | 0 <= i < |entries| ::
      entries[i].name == e.project.triggers[i].name && entries[i].id in e.managed && e.managed[entries[i].id] == entries[i].name
    ensures Final(Apply(w, PutAgent(e.agent, e.mode, e.project.definition, Some(NewStamp(e.project, entries, now)))), e)
  {
    var stamp := Some(NewStamp(e.project, entries, now));
    var a := w.agents[e.agent];
    NewStampIsFaithful(a.triggers, e.project, e.prev, e.managed, entries, now);
    hide TriggersMatch, Records, WellStamped, Loaded;
    assert Apply(w, PutAgent(e.agent, e.mode, e.project.definition, stamp)).agents[e.agent] ==
           a.(mode := e.mode, definition := e.project.definition, stamp := stamp);
  }

  method StampFor(e: Entry, now: int) returns (stamp: Stamp, ghost entries: seq<ManagedEntry>)
    requires forall i | 0 <= i < |e.project.triggers| :: e.project.triggers[i].name in e.managed.Values
    ensures stamp == NewStamp(e.project, entries, now) && |entries| == |e.project.triggers|
    ensures forall i | 0 <= i < |entries| ::
      entries[i].name == e.project.triggers[i].name && entries[i].id in e.managed && e.managed[entries[i].id] == entries[i].name
  {
    var manifest := ManagedTriggerManifest(e.project.triggers, e.managed);
    entries := manifest;
    stamp := NewStamp(e.project, manifest, now);
  }

  method StampOne(g: Gateway, e: Entry, now: int, ghost r: Run) returns (ok: bool)
    requires InRun(g, r) && Stampable(g.world, e) && e.mutate && Loaded(e.project.triggers) && e.project.hash != ""
    requires e.project.name in r.names && e.project.name != r.root
    modifies g
    ensures InRun(g, r) && old(g.calls) <= g.calls
    ensures ok ==> g.failed == old(g.failed)
    ensures Confined(old(g.world), g.world, {e.project.name})
    ensures ok ==> Final(g.world, e)
    ensures AllDone(g.outcome, old(g.calls)) ==> ok
  {
    hide WellFormed, Confined, RootQuiet, StepsMid, TriggersMatch, WellStamped, Loaded, NewStamp, Apply;
    var stamp;
    ghost var entries;
    stamp, entries := StampFor(e, now);
    StampedIsFinal(g.world, e, entries, now);
    var sent, reply := SendInRun(g, PutAgent(e.agent, e.mode, e.project.definition, Some(stamp)), r);
    if !sent {
      return false;
    }
    var wait := g.Read();
    ok := wait && AgentMatches(g.world.agents[e.agent], e.project, e.mode, true);
  }

  lemma FinalKept(w: World, w': World, e: Entry, name: string)
    requires Final(w, e) && Confined(w, w', {name}) && e.project.name != name
    ensures Final(w', e)
  {
    hide TriggersMatch, WellStamped, StampMatches;
    assert w.agents[e.agent].name == e.project.name;
    assert w'.agents[e.agent] == w.agents[e.agent];
  }

  lemma StampableKept(w: World, w': World, e: Entry, name: string)
    requires Stampable(w, e) && Confined(w, w', {name}) && e.project.name != name
    ensures Stampable(w', e)
  {
    hide TriggersMatch, WellStamped, StampMatches, Settled;
    assert w'.agents[e.agent] == w.agents[e.agent];
  }

  /** The part of the plan above `i` is final and the rest can be stamped. */
  ghost predicate StampedFrom(r: Run, w: World, plan: seq<Entry>, i: nat) {
    && i <= |plan|
    && (forall j | i <= j < |plan| :: Final(w, plan[j]))
    && (forall j | 0 <= j < i :: Stampable(w, plan[j]))
    && plan != [] && plan[0].agent in w.agents && LinksMatch(w.agents[plan[0].agent].links, ChildIds(plan))
  }

  lemma StampStep(r: Run, w: World, w': World, plan: seq<Entry>, i: nat)
    requires Workable(r, plan) && 1 <= i < |plan| && StampedFrom(r, w, plan, i + 1)
    requires Confined(w, w', {plan[i].project.name}) && Final(w', plan[i])
    ensures StampedFrom(r, w', plan, i)
  {
    hide Final, Stampable, Confined, LinksMatch, Loaded;
    forall j | i <= j < |plan| ensures Final(w', plan[j]) {
      if j > i {
        FinalKept(w, w', plan[j], plan[i].project.name);
      }
    }
    forall j | 0 <= j < i ensures Stampable(w', plan[j]) {
      StampableKept(w, w', plan[j], plan[i].project.name);
    }
    StampableNamed(w, plan[0]);
    ConfinedKeepsOther(w, w', plan[i].project.name, plan[0].agent);
  }

  lemma StampableNamed(w: World, e: Entry)
    requires Stampable(w, e)
    ensures e.agent in w.agents && w.agents[e.agent].name == e.project.name
  {
  }

  lemma ConfinedKeepsOther(w: World, w': World, name: string, id: Id)
    requires Confined(w, w', {name}) && id in w.agents && w.agents[id].name != name
    ensures id in w'.agents && w'.agents[id] == w.agents[id]
  {
  }

  lemma StampSkip(r: Run, w: World, plan: seq<Entry>, i: nat)
    requires 1 <= i < |plan| && StampedFrom(r, w, plan, i + 1) && !plan[i].mutate
    ensures StampedFrom(r, w, plan, i)
  {
    hide Final, LinksMatch, Verified;
    assert Stampable(w, plan[i]);
  }

  method StampChildren(g: Gateway, plan: seq<Entry>, now: int, ghost r: Run) returns (ok: bool)
    requires InRun(g, r) && Workable(r, plan) && StampedFrom(r, g.world, plan, |plan|)
    requires forall i | 0 <= i < |plan| :: plan[i].project.hash != ""
    modifies g
    ensures InRun(g, r) && old(g.calls) <= g.calls
    ensures ok ==> g.failed == old(g.failed)
    ensures ok ==> StampedFrom(r, g.world, plan, 1)
    ensures AllDone(g.outcome, old(g.calls)) ==> ok
  {
    hide Mid, StepsMid, Confined, Final, Stampable, LinksMatch, Loaded;
    for i := |plan| downto 1
      invariant InRun(g, r) && old(g.calls) <= g.calls && g.failed == old(g.failed)
      invariant StampedFrom(r, g.world, plan, i)
    {
      ghost var w := g.world;
      if plan[i].mutate {
        var stamped := StampOne(g, plan[i], now, r);
        if !stamped {
          return false;
        }
        StampStep(r, w, g.world, plan, i);
      } else {
        StampSkip(r, w, plan, i);
      }
    }
    ok := true;
  }

  /** The end of the run: the root carries its stamp and everything is as it says. */
  ghost predicate AtEnd(r: Run, w: World, graph: Graph) {
    WellFormed(w) && Confined(r.before, w, r.names) && Converged(w, graph)
  }

  /** In every state of the run but possibly the last the root is unstamped, beginning with
      the first write if the run found it stamped, and the last state is converged if the
      root is stamped in it. */
  ghost predicate StepsSafe(r: Run, trace: seq<Step>, graph: Graph) {
    && Grown(r.earlier, trace)
    && forall k | |r.earlier| <= k < |trace| ::
         || Mid(r, trace[k].after)
         || (k == |trace| - 1 && Begun(r, trace[..k]) && AtEnd(r, trace[k].after, graph))
  }

  ghost predicate PlanOf(plan: seq<Entry>, graph: Graph) {
    |plan| == |Members(graph)| &&
    forall i | 0 <= i < |plan| :: plan[i].project == Members(graph)[i] && plan[i].mode == ModeOf(i)
  }

  lemma FinalIsConverged(w: World, plan: seq<Entry>, graph: Graph)
    requires PlanOf(plan, graph) && (forall i | 0 <= i < |plan| :: Final(w, plan[i])) && plan != []
    requires plan[0].agent in w.agents && LinksMatch(w.agents[plan[0].agent].links, ChildIds(plan))
    ensures Converged(w, graph)
  {
    hide Settled, LinksMatch;
    var ids := seq(|plan|, i requires 0 <= i < |plan| => plan[i].agent);
    assert forall i | 0 <= i < |plan| :: ids[i] == plan[i].agent && Final(w, plan[i]);
    assert (set i | 1 <= i < |ids| :: ids[i]) == ChildIds(plan);
    assert ConvergedAt(w, graph, ids);
  }

  /** The state once the root's stamp is written. */
  ghost function RootStamped(w: World, e: Entry, entries: seq<ManagedEntry>, now: int): World
    requires e.agent in w.agents
  {
    Apply(w, PutAgent(e.agent, e.mode, e.project.definition, Some(NewStamp(e.project, entries, now))))
  }

  ghost predicate AllFinal(w: World, plan: seq<Entry>) {
    forall i | 0 <= i < |plan| :: Final(w, plan[i])
  }

  /** Stamping the root of an otherwise final graph converges it. */
  lemma RootStampConverges(r: Run, w: World, plan: seq<Entry>, graph: Graph, entries: seq<ManagedEntry>, now: int)
    requires Mid(r, w) && Workable(r, plan) && StampedFrom(r, w, plan, 1) && PlanOf(plan, graph)
    requires plan[0].agent in w.agents && plan[0].project.hash != "" && |entries| == |plan[0].project.triggers|
    requires forall i | 0 <= i < |entries| ::
      && entries[i].name == plan[0].project.triggers[i].name && entries[i].id in plan[0].managed
      && plan[0].managed[entries[i].id] == entries[i].name
    ensures AtEnd(r, RootStamped(w, plan[0], entries, now), graph) && AllFinal(RootStamped(w, plan[0], entries, now), plan)
  {
    hide Final, Stampable, LinksMatch, Loaded, WellFormed, NewStamp;
    var e := plan[0];
    var wr := PutAgent(e.agent, e.mode, e.project.definition, Some(NewStamp(e.project, entries, now)));
    var w' := Apply(w, wr);
    assert Stampable(w, e);
    StampedIsFinal(w, e, entries, now);
    ApplyKeepsWellFormed(w, wr);
    assert OneAgent(w, w', e.agent);
    StampableNamed(w, e);
    RootWriteIsConfined(r, w, w', e.agent);
    forall i | 0 <= i < |plan| ensures Final(w', plan[i]) {
      if i > 0 {
        FinalKept(w, w', plan[i], e.project.name);
      }
    }
    assert w'.agents[e.agent].links == w.agents[e.agent].links;
    FinalIsConverged(w', plan, graph);
  }

  lemma RootWriteIsConfined(r: Run, w: World, w': World, id: Id)
    requires Mid(r, w) && OneAgent(w, w', id) && w.agents[id].name in r.names
    ensures Confined(w, w', {w.agents[id].name}) && Confined(r.before, w', r.names)
  {
    hide WellFormed, RootQuiet;
  }

  method StampAll(g: Gateway, plan: seq<Entry>, now: int, ghost r: Run, ghost graph: Graph) returns (ok: bool)
    requires InRun(g, r) && Workable(r, plan) && StampedFrom(r, g.world, plan, |plan|) && PlanOf(plan, graph)
    requires forall i | 0 <= i < |plan| :: plan[i].project.hash != ""
    modifies g
    ensures WellFormed(g.world) && StepsSafe(r, g.trace, graph) && old(g.calls) <= g.calls
    ensures ok ==> g.failed == old(g.failed)
    ensures Mid(r, g.world) || AtEnd(r, g.world, graph)
    ensures ok ==> AtEnd(r, g.world, graph) && forall i | 0 <= i < |plan| :: Final(g.world, plan[i])
    ensures AllDone(g.outcome, old(g.calls)) ==> ok
  {
    hide Confined, RootQuiet, WellFormed, Final, Stampable, LinksMatch, Loaded, NewStamp, Apply, Converged;
    ok := StampChildren(g, plan, now, r);
    if !ok {
      return false;
    }
    RootRecorded(r, g.world, plan);
    var stamp;
    ghost var entries;
    stamp, entries := StampFor(plan[0], now);
    RootStampConverges(r, g.world, plan, graph, entries, now);
    var sent, reply := g.Send(PutAgent(plan[0].agent, plan[0].mode, plan[0].project.definition, Some(stamp)));
    if !sent {
      return false;
    }
    var wait := g.Read();
    ok := wait && plan[0].agent in g.world.agents && AgentMatches(g.world.agents[plan[0].agent], plan[0].project, plan[0].mode, true);
    FinalMatches(g.world, plan[0]);
  }

  lemma RootRecorded(r: Run, w: World, plan: seq<Entry>)
    requires Workable(r, plan) && StampedFrom(r, w, plan, 1)
    ensures forall i | 0 <= i < |plan[0].project.triggers| :: plan[0].project.triggers[i].name in plan[0].managed.Values
    ensures plan[0].agent in w.agents
  {
    hide LinksMatch, TriggersMatch;
    assert Stampable(w, plan[0]);
  }

  lemma FinalMatches(w: World, e: Entry)
    requires Final(w, e)
    ensures e.agent in w.agents && AgentMatches(w.agents[e.agent], e.project, e.mode, true)
  {
  }
}
