/** The whole deployment, and what holds over any sequence of deployments. */
module Deployment {
  import opened Basics
  import opened Fleet
  import opened Triggers
  import opened Links
  import opened Projects
  import opened Deploy
  import opened Rollout

  // ----- When a forced run meets no obstacle, and when it finishes

  /** The stamps record no name twice and only identifiers that were issued. */
  ghost predicate TraceableMember(w: World, p: Project) {
    forall id | id in w.agents && w.agents[id].name == p.name ::
      && Injective(ManagedOf(w.agents[id].stamp))
      && (forall t | t in ManagedOf(w.agents[id].stamp) :: t < w.nextId)
  }

  ghost predicate Traceable(w: World, graph: Graph) {
    forall i | 0 <= i < |Members(graph)| :: TraceableMember(w, Members(graph)[i])
  }

  /** A definition that has to be created reads back as sent, and every declared trigger
      name is free when its turn comes. */
  ghost predicate ReadyMember(w: World, p: Project) {
    && (Unused(w, p.name) ==> NewDefinition(p.definition, w.defaults) == p.definition)
    && forall id | id in w.agents && w.agents[id].name == p.name ::
         Attainable(w.agents[id].triggers, p.triggers, PrevOf(w.agents[id], p, true))
  }

  ghost predicate MembersReady(w: World, graph: Graph) {
    forall i | 0 <= i < |Members(graph)| :: ReadyMember(w, Members(graph)[i])
  }

  /** No link of another kind is in the place of a link from the root to a subagent. */
  ghost predicate LinksReady(w: World, graph: Graph) {
    forall root, child, i | root in w.agents && w.agents[root].name == graph.root.name && 1 <= i < |Members(graph)|
                            && child in w.agents && w.agents[child].name == Members(graph)[i].name ::
      Linkable(w.agents[root].links, child)
  }

  ghost predicate Ready(w: World, graph: Graph) {
    MembersReady(w, graph) && LinksReady(w, graph)
  }

  /** No trigger of the project has to be created, recreated or dropped. */
  ghost predicate OneRunMember(w: World, p: Project) {
    && (Unused(w, p.name) ==> p.triggers == [])
    && forall id | id in w.agents && w.agents[id].name == p.name ::
         OneRunSuffices(w.agents[id].triggers, p.triggers, PrevOf(w.agents[id], p, true))
  }

  ghost predicate OneRun(w: World, graph: Graph) {
    forall i | 0 <= i < |Members(graph)| :: OneRunMember(w, Members(graph)[i])
  }

  // ----- Entering the run

  lemma NothingToWrite(w: World, plan: seq<Entry>, graph: Graph, force: bool)
    requires Planned(w, plan, graph, force) && forall i | 0 <= i < |plan| :: !plan[i].mutate
    ensures Converged(w, graph)
  {
    hide Settled, LinksMatch, WellStamped, PrevOf;
    var ids := seq(|plan|, i requires 0 <= i < |plan| => if plan[i].existing.Some? then plan[i].existing.value else 0);
    forall i | 0 <= i < |plan| ensures ids[i] in w.agents && Settled(w.agents[ids[i]], Members(graph)[i], ModeOf(i)) {
      assert Inspected(w, plan[i], Members(graph)[i], ModeOf(i), force);
      assert !Unsettled(w, plan[i]);
    }
    assert RootLinked(w, plan);
    assert (set i | 1 <= i < |ids| :: ids[i]) == set i | 1 <= i < |plan| :: plan[i].existing.value;
    assert ConvergedAt(w, graph, ids);
  }

  lemma NothingToWriteIfConverged(w: World, plan: seq<Entry>, graph: Graph, force: bool)
    requires WellFormed(w) && Planned(w, plan, graph, force) && Converged(w, graph)
    ensures forall i | 0 <= i < |plan| :: !plan[i].mutate
  {
    hide WellFormed, Settled, LinksMatch, WellStamped, Inspected, Unsettled, Converged;
    ConvergedIsLinked(w, graph, plan, force);
  }

  ghost function RunOf(g: Gateway, plan: seq<Entry>, graph: Graph): Run
    reads g
  {
    Run(g.trace, g.world, MutatedNames(plan), graph.root.name)
  }

  lemma PlanIsFor(g: Gateway, found: seq<Entry>, plan: seq<Entry>, graph: Graph, force: bool)
    requires WellFormed(g.world) && LoadedGraph(graph) && Planned(g.world, found, graph, force)
    requires plan == found[0 := found[0].(mutate := true)]
    ensures PlanFor(RunOf(g, plan, graph), plan, graph, force)
  {
    hide WellFormed, LoadedGraph, AllInspected, RootLinked, Unsettled;
    MarkRoot(g.world, found, Members(graph), force, true);
  }

  lemma PlanIsWorkable(r: Run, plan: seq<Entry>, graph: Graph, force: bool)
    requires PlanFor(r, plan, graph, force)
    ensures Workable(r, plan) && PlanOf(plan, graph)
    ensures forall i | 0 <= i < |plan| :: plan[i].project.hash != "" && 0 !in plan[i].prev
    ensures forall i | 0 <= i < |plan| && !plan[i].mutate :: plan[i].existing.Some? && plan[i].project.name !in r.names
  {
    forall i | 0 <= i < |plan|
      ensures plan[i].project == Members(graph)[i] && plan[i].mode == ModeOf(i) && Loaded(plan[i].project.triggers)
      ensures plan[i].mutate ==> plan[i].project.name in r.names
      ensures plan[i].project.name == r.root <==> i == 0
      ensures forall j | 0 <= j < |plan| && j != i :: plan[j].project.name != plan[i].project.name
      ensures plan[i].project.hash != "" && 0 !in plan[i].prev
    {
      EntryFacts(r, plan, graph, force, i);
      hide Loaded, AllInspected, WellFormed, Unsettled, Unused;
      if plan[i].existing.Some? {
        PrevHasNoZero(r.before.agents[plan[i].existing.value], plan[i].project, force);
      }
    }
    hide Loaded, AllInspected, WellFormed, LoadedGraph;
  }

  lemma PrevHasNoZero(a: Agent, p: Project, force: bool)
    ensures 0 !in PrevOf(a, p, force)
  {
    ManagedOfHasNoZero(a.stamp);
    AdoptedHasNoZero(a.triggers, p.triggers);
  }

  lemma ClearedIsPending(r: Run, w: World, plan: seq<Entry>, graph: Graph, force: bool)
    requires PlanFor(r, plan, graph, force) && Cleared(r.before, w)
    ensures AllPending(r, w, plan, 0)
  {
    hide WellFormed, AllInspected, Unsettled, PlanFor, Loaded;
    PlanBasics(r, plan, graph, force);
    forall i | 0 <= i < |plan| ensures Pending(r, w, plan[i]) {
      EntryFacts(r, plan, graph, force, i);
    }
  }

  // ----- Leaving it

  /** An agent without writes is as the preflight found it. */
  lemma UnmutatedIsFinal(r: Run, w: World, plan: seq<Entry>, graph: Graph, force: bool, i: nat, e: Entry)
    requires PlanFor(r, plan, graph, force) && i < |plan| && !plan[i].mutate && Mid(r, w)
    requires e == plan[i].(agent := e.agent, managed := e.managed) && Stage(r, w, e, LinksDone)
    requires plan[i].project.name !in r.names
    ensures Final(w, e) && w.agents[e.agent] == r.before.agents[e.agent]
    ensures plan[i].prev == ManagedOf(w.agents[e.agent].stamp)
  {
    hide WellFormed, TriggersMatch, ManagedOf, WellStamped, StampMatches, Adopted, Loaded;
    EntryFacts(r, plan, graph, force, i);
    assert !Unsettled(r.before, plan[i]);
  }

  lemma VerifiedIsStampable(r: Run, w: World, plan: seq<Entry>, done: seq<Entry>, verified: seq<Entry>, graph: Graph, force: bool)
    requires PlanFor(r, plan, graph, force) && Mid(r, w)
    requires SamePlan(plan, done) && SamePlan(done, verified) && AllStages(r, w, done, |done|, LinksDone)
    requires forall i | 0 <= i < |done| :: verified[i].agent == done[i].agent && Verified(w, verified[i])
    requires LinksMatch(w.agents[done[0].agent].links, ChildIds(done))
    ensures StampedFrom(r, w, verified, |verified|)
    ensures Workable(r, verified) && PlanOf(verified, graph) && forall i | 0 <= i < |verified| :: verified[i].project.hash != ""
  {
    hide Mid, Stage, Verified, Final, LinksMatch, Loaded, PlanFor, Workable;
    PlanIsWorkable(r, plan, graph, force);
    SamePlanIsWorkable(r, plan, done);
    SamePlanIsWorkable(r, done, verified);
    forall i | 0 <= i < |verified| ensures Stampable(w, verified[i]) {
      StagedExists(r, w, done[i], LinksDone);
      if !plan[i].mutate {
        UnmutatedIsFinal(r, w, plan, graph, force, i, done[i]);
        FinalIgnoresManaged(w, done[i], verified[i].managed);
      }
    }
    assert ChildIds(verified) == ChildIds(done) by {
      assert forall i | 0 <= i < |done| :: verified[i].agent == done[i].agent;
    }
  }

  lemma FinalIgnoresManaged(w: World, e: Entry, managed: map<Id, string>)
    requires Final(w, e)
    ensures Final(w, e.(managed := managed))
  {
  }

  // ----- Without faults

  lemma PrevIsTraceable(w: World, id: Id, p: Project, force: bool)
    requires WellFormed(w) && id in w.agents && w.agents[id].name == p.name && TraceableMember(w, p)
    ensures Injective(PrevOf(w.agents[id], p, force)) && forall t | t in PrevOf(w.agents[id], p, force) :: t < w.nextId
  {
    assert AgentOk(w.agents[id], w.nextId);
    AdoptedIsInjective(w.agents[id].triggers, p.triggers);
    hide AgentOk, ManagedOf, Injective;
  }

  lemma AdoptedIsInjective(actual: map<Id, TriggerSpec>, decl: seq<TriggerSpec>)
    ensures Injective(Adopted(actual, decl)) && forall t | t in Adopted(actual, decl) :: t in actual
  {
    var adopted := Adopted(actual, decl);
    forall a, b | a in adopted && b in adopted && adopted[a] == adopted[b] ensures a == b {
      var i :| 0 <= i < |decl| && AdoptableAs(actual, a, decl[i]);
    }
  }

  /** What readiness means for one entry of the plan. */
  lemma ReadyEntry(r: Run, plan: seq<Entry>, graph: Graph, i: nat)
    requires PlanFor(r, plan, graph, true) && i < |plan| && TraceableMember(r.before, Members(graph)[i])
    ensures Injective(plan[i].prev) && forall t | t in plan[i].prev :: t < r.before.nextId
    ensures ReadyMember(r.before, Members(graph)[i]) <==>
            Settable(r.before.defaults, plan[i]) && Attainable(OldTriggers(r, plan[i]), plan[i].project.triggers, plan[i].prev)
  {
    EntryFacts(r, plan, graph, true, i);
    var p := Members(graph)[i];
    assert WellFormed(r.before);
    match plan[i].existing
    case None => NothingIsAttainable(p.triggers);
    case Some(id) =>
      PrevIsTraceable(r.before, id, p, true);
      OnlyOneNamed(r.before, id);
      hide WellFormed, Attainable, NewDefinition, PrevOf, Loaded, AllInspected, Injective, TraceableMember;
  }

  lemma NothingIsAttainable(decl: seq<TriggerSpec>)
    ensures Attainable(map[], decl, map[]) && (OneRunSuffices(map[], decl, map[]) <==> decl == [])
  {
    if decl != [] {
      assert !Updatable(map[], map[], decl[0]);
    }
  }

  /** The comparison in the preflight agrees with the one-run criterion on the state before. */
  lemma OneRunOfEntry(r: Run, plan: seq<Entry>, graph: Graph, i: nat)
    requires PlanFor(r, plan, graph, true) && i < |plan|
    ensures OneRunMember(r.before, Members(graph)[i]) <==>
            OneRunSuffices(OldTriggers(r, plan[i]), plan[i].project.triggers, plan[i].prev)
  {
    hide OneRunSuffices, PrevOf, Loaded, AllInspected, Unsettled, AgentOk;
    EntryFacts(r, plan, graph, true, i);
    NothingIsAttainable(plan[i].project.triggers);
  }

  lemma AgentTriggersOk(w: World, id: Id)
    requires WellFormed(w) && id in w.agents
    ensures UniqueNames(w.agents[id].triggers) && 0 !in w.agents[id].triggers
    ensures forall t | t in w.agents[id].triggers :: t < w.nextId
  {
    assert AgentOk(w.agents[id], w.nextId);
  }

  lemma VerifiableExactly(r: Run, w: World, plan: seq<Entry>, e: Entry, graph: Graph, i: nat)
    requires PlanFor(r, plan, graph, true) && i < |plan| && TraceableMember(r.before, Members(graph)[i]) && Mid(r, w)
    requires e == plan[i].(agent := e.agent, managed := e.managed) && Stage(r, w, e, LinksDone)
    requires !plan[i].mutate ==> plan[i].project.name !in r.names
    ensures Verifiable(w, e) <==> OneRunMember(r.before, Members(graph)[i])
    ensures Verified(w, e) ==> Verifiable(w, e)
  {
    hide WellFormed, TriggersMatch, Synced, KeptWherePossible, OneRunSuffices, ReadyMember, OneRunMember, Loaded, AllInspected,
      Confined, RootQuiet, Records, UniqueNames;
    EntryFacts(r, plan, graph, true, i);
    ReadyEntry(r, plan, graph, i);
    OneRunOfEntry(r, plan, graph, i);
    assert WellFormed(w);
    AgentTriggersOk(w, e.agent);
    if plan[i].mutate {
      MatchAfterSync(OldTriggers(r, e), w.agents[e.agent].triggers, e.project.triggers, e.prev, r.before.nextId);
    } else {
      UnmutatedIsFinal(r, w, plan, graph, true, i, e);
      assert TriggersMatch(OldTriggers(r, e), e.project.triggers, e.prev);
      MatchSuffices(OldTriggers(r, e), e.project.triggers, e.prev);
    }
  }

  lemma MatchSuffices(actual: map<Id, TriggerSpec>, decl: seq<TriggerSpec>, prev: map<Id, string>)
    requires TriggersMatch(actual, decl, prev)
    ensures OneRunSuffices(actual, decl, prev)
  {
    forall i | 0 <= i < |decl| ensures Updatable(actual, prev, decl[i]) {
      assert Served(actual, prev, decl[i]);
    }
  }

  /** An agent whose triggers match is ready and needs no further trigger writes. */
  lemma MatchedMember(w: World, p: Project, id: Id)
    requires WellFormed(w) && id in w.agents && w.agents[id].name == p.name
    requires Loaded(p.triggers) && TriggersMatch(w.agents[id].triggers, p.triggers, PrevOf(w.agents[id], p, true))
    ensures ReadyMember(w, p) && OneRunMember(w, p)
  {
    hide PrevOf, AgentOk;
    var a := w.agents[id];
    var prev := PrevOf(a, p, true);
    MatchIsAttainable(a.triggers, p.triggers, prev);
    MatchSuffices(a.triggers, p.triggers, prev);
    OnlyOneNamed(w, id);
    hide Attainable, OneRunSuffices, WellFormed;
  }

  lemma MatchedIsLive(actual: map<Id, TriggerSpec>, decl: seq<TriggerSpec>, prev: map<Id, string>, t: Id)
    requires Injective(prev) && TriggersMatch(actual, decl, prev) && t in prev
    ensures t in actual
  {
    var i :| 0 <= i < |decl| && decl[i].name == prev[t];
    assert Served(actual, prev, decl[i]);
  }

  lemma SettledMember(w: World, p: Project, mode: Mode, id: Id)
    requires WellFormed(w) && id in w.agents && Settled(w.agents[id], p, mode) && Loaded(p.triggers)
    ensures ReadyMember(w, p) && OneRunMember(w, p) && TraceableMember(w, p)
  {
    MatchingStampIsInjective(w.agents[id].stamp.value, p);
    OnlyOneNamed(w, id);
    AgentTriggersOk(w, id);
    hide WellFormed, TriggersMatch, StampMatches, ManagedOf, Loaded, Injective, ReadyMember, OneRunMember;
    MatchedMember(w, p, id);
    forall t | t in ManagedOf(w.agents[id].stamp) ensures t < w.nextId {
      MatchedIsLive(w.agents[id].triggers, p.triggers, ManagedOf(w.agents[id].stamp), t);
    }
  }

  lemma ConvergedIsReady(w: World, graph: Graph)
    requires WellFormed(w) && LoadedGraph(graph) && Converged(w, graph)
    ensures Ready(w, graph) && OneRun(w, graph) && Traceable(w, graph)
  {
    hide WellFormed, Settled, LinksMatch, ReadyMember, OneRunMember, TraceableMember, Loaded, LinksReady;
    var ids :| ConvergedAt(w, graph, ids);
    forall i | 0 <= i < |Members(graph)|
      ensures ReadyMember(w, Members(graph)[i]) && OneRunMember(w, Members(graph)[i]) && TraceableMember(w, Members(graph)[i])
      ensures w.agents[ids[i]].name == Members(graph)[i].name
    {
      SettledMember(w, Members(graph)[i], ModeOf(i), ids[i]);
      assert Settled(w.agents[ids[i]], Members(graph)[i], ModeOf(i));
      SettledIsNamed(w.agents[ids[i]], Members(graph)[i], ModeOf(i));
    }
    MatchedLinksAreReady(w, graph, ids);
  }

  lemma SettledIsNamed(a: Agent, p: Project, mode: Mode)
    requires Settled(a, p, mode)
    ensures a.name == p.name
  {
  }

  /** Where the links match, none is in the way. */
  lemma MatchedLinksAreReady(w: World, graph: Graph, ids: seq<Id>)
    requires WellFormed(w) && |ids| == |Members(graph)|
    requires forall i | 0 <= i < |ids| :: ids[i] in w.agents && w.agents[ids[i]].name == Members(graph)[i].name
    requires LinksMatch(w.agents[ids[0]].links, set i | 1 <= i < |ids| :: ids[i])
    ensures LinksReady(w, graph)
  {
    hide AgentOk, Leads, Occupied;
    var children := set i | 1 <= i < |ids| :: ids[i];
    forall root, child, i | root in w.agents && w.agents[root].name == graph.root.name && 1 <= i < |Members(graph)|
                            && child in w.agents && w.agents[child].name == Members(graph)[i].name
      ensures Linkable(w.agents[root].links, child)
    {
      assert Members(graph)[0] == graph.root;
      assert root == ids[0] && child == ids[i] && child in children;
    }
  }

  /** Where verification failed, every agent is ready for a run that adopts its triggers. */
  lemma UnverifiedIsReady(r: Run, w: World, plan: seq<Entry>, e: Entry, graph: Graph, i: nat)
    requires PlanFor(r, plan, graph, true) && i < |plan| && Mid(r, w)
    requires e == plan[i].(agent := e.agent, managed := e.managed) && Stage(r, w, e, LinksDone)
    requires !plan[i].mutate ==> plan[i].project.name !in r.names
    ensures ReadyMember(w, Members(graph)[i]) && OneRunMember(w, Members(graph)[i]) && TraceableMember(w, Members(graph)[i])
  {
    hide WellFormed, TriggersMatch, Synced, KeptWherePossible, ReadyMember, OneRunMember, TraceableMember, Loaded, AllInspected,
      Confined, RootQuiet, UniqueNames, Injective, Adopted, Attainable, ManagedOf;
    EntryFacts(r, plan, graph, true, i);
    assert WellFormed(w);
    AgentTriggersOk(w, e.agent);
    if plan[i].mutate {
      AdoptionAfterSync(OldTriggers(r, e), w.agents[e.agent].triggers, e.project.triggers, e.prev, r.before.nextId);
      MatchedMember(w, e.project, e.agent);
      UnstampedIsTraceable(w, e.agent, e.project);
    } else {
      UnmutatedIsFinal(r, w, plan, graph, true, i, e);
      SettledMember(w, e.project, e.mode, e.agent);
    }
  }

  lemma UnstampedIsTraceable(w: World, id: Id, p: Project)
    requires WellFormed(w) && id in w.agents && w.agents[id].name == p.name && w.agents[id].stamp.None?
    ensures TraceableMember(w, p)
  {
    OnlyOneNamed(w, id);
    hide WellFormed;
  }

  /** A run gets as far as verification only from a state in which the agent was ready. */
  lemma StagedWasReady(r: Run, w: World, plan: seq<Entry>, e: Entry, graph: Graph, i: nat)
    requires PlanFor(r, plan, graph, true) && i < |plan| && TraceableMember(r.before, Members(graph)[i]) && Mid(r, w)
    requires e == plan[i].(agent := e.agent, managed := e.managed) && Stage(r, w, e, LinksDone)
    requires !plan[i].mutate ==> plan[i].project.name !in r.names
    ensures ReadyMember(r.before, Members(graph)[i])
  {
    hide WellFormed, TriggersMatch, Synced, KeptWherePossible, ReadyMember, TraceableMember, Loaded, AllInspected,
      Confined, RootQuiet, UniqueNames, Injective, Adopted, Attainable, ManagedOf, NewDefinition;
    EntryFacts(r, plan, graph, true, i);
    ReadyEntry(r, plan, graph, i);
    if !plan[i].mutate {
      UnmutatedIsFinal(r, w, plan, graph, true, i, e);
      MatchIsAttainable(OldTriggers(r, e), e.project.triggers, e.prev);
    }
  }

  // ----- After a run that was cut off

  /** A cut-off run leaves agents without stamps. Such an agent is ready for a forced run
      exactly when each of its triggers that bears a declared name is as declared. */
  lemma UnstampedIsReadyExactly(w: World, p: Project, id: Id)
    requires WellFormed(w) && id in w.agents && w.agents[id].name == p.name && w.agents[id].stamp.None? && Loaded(p.triggers)
    ensures TraceableMember(w, p)
    ensures ReadyMember(w, p) <==>
            forall t | t in w.agents[id].triggers && Declares(p.triggers, w.agents[id].triggers[t].name) :: w.agents[id].triggers[t] in p.triggers
  {
    UnstampedIsTraceable(w, id, p);
    OnlyOneNamed(w, id);
    AgentTriggersOk(w, id);
    hide WellFormed, Attainable, Adopted, Declares, Loaded, UniqueNames, NewDefinition;
    UnstampedAttainable(w.agents[id].triggers, p.triggers);
  }

  /** So a run that is cut off after removing a stamp strands every trigger that it was going
      to update. */
  lemma CutOffStrandsUpdates(w: World, p: Project, id: Id, config: map<string, string>, t: Id)
    requires WellFormed(w) && id in w.agents && w.agents[id].name == p.name && Loaded(p.triggers)
    requires t in w.agents[id].triggers && Declares(p.triggers, w.agents[id].triggers[t].name) && w.agents[id].triggers[t] !in p.triggers
    ensures !ReadyMember(Apply(w, ClearStamp(id, config)), p)
  {
    ApplyKeepsWellFormed(w, ClearStamp(id, config));
    hide ReadyMember, WellFormed, Declares, Loaded;
    UnstampedIsReadyExactly(Apply(w, ClearStamp(id, config)), p, id);
  }

  /** And once the stamp is gone, a managed trigger whose declaration was dropped belongs to
      nobody: the next forced run does not own it, so it stays and goes on firing. */
  lemma CutOffOrphansDropped(w: World, p: Project, id: Id, config: map<string, string>, t: Id)
    requires id in w.agents && t in w.agents[id].triggers && !Declares(p.triggers, w.agents[id].triggers[t].name)
    ensures var cut := Apply(w, ClearStamp(id, config));
            id in cut.agents && t in cut.agents[id].triggers && t !in PrevOf(cut.agents[id], p, true)
  {
    hide Declares, Adopted;
    if t in Adopted(w.agents[id].triggers, p.triggers) {
      AdoptsDeclaredOnly(w.agents[id].triggers, p.triggers, t);
    }
  }

  lemma AdoptsDeclaredOnly(actual: map<Id, TriggerSpec>, decl: seq<TriggerSpec>, t: Id)
    requires t in Adopted(actual, decl)
    ensures Declares(decl, actual[t].name)
  {
    var i :| 0 <= i < |decl| && AdoptableAs(actual, t, decl[i]);
  }

  // ----- A run with something to write

  lemma MidStepsAreSafe(r: Run, trace: seq<Step>, graph: Graph)
    requires StepsMid(r, trace)
    ensures StepsSafe(r, trace, graph)
  {
    hide Mid, AtEnd;
  }

  /** All phases but the last are done and the root is unstamped. The links match unless
      the store had to drop one. */
  ghost predicate Assembled(r: Run, w: World, plan: seq<Entry>, done: seq<Entry>) {
    && Mid(r, w) && SamePlan(plan, done) && AllStages(r, w, done, |done|, LinksDone)
    && done != [] && done[0].agent in w.agents
    && (LinksMatch(w.agents[done[0].agent].links, ChildIds(done)) <==> AllLinkable(OldLinks(r, done[0]), ChildIds(done)))
  }

  method Assemble(g: Gateway, plan: seq<Entry>, force: bool, ghost r: Run, ghost graph: Graph) returns (ok: bool, done: seq<Entry>)
    requires PlanFor(r, plan, graph, force) && g.world == r.before && g.trace == r.earlier
    modifies g
    ensures WellFormed(g.world) && StepsMid(r, g.trace) && old(g.calls) <= g.calls
    ensures ok ==> g.failed == old(g.failed)
    ensures g.world == r.before || Mid(r, g.world)
    ensures ok ==> Assembled(r, g.world, plan, done) && Begun(r, g.trace)
    ensures (force || AllFresh(plan)) && AllDone(g.outcome, old(g.calls)) ==>
              Traceable(r.before, graph) && MembersReady(r.before, graph) ==> ok
  {
    hide StepsMid, WellFormed, Confined, RootQuiet, PlanFor, Cleared, AllPending, AllStages, LinksMatch, AllLinkable, Workable, Settable,
      ReadyMember, SamePlan, Traceable, MembersReady, AllAttainable, AllFresh;
    done := plan;
    AsForced(r, plan, graph, force);
    PlanIsWorkable(r, plan, graph, force);
    ok := Invalidate(g, plan, r, graph, force);
    if !ok {
      return false, done;
    }
    ClearedIsPending(r, g.world, plan, graph, force);
    if Traceable(r.before, graph) && MembersReady(r.before, graph) {
      PlanIsReady(r, plan, graph);
    }
    ok, done := ConvergeAll(g, plan, r);
    if !ok {
      return false, done;
    }
    SamePlanIsWorkable(r, plan, done);
    SamePlanSameTriggers(r, plan, done);
    FreshRoot(r, done);
    ok := ActivateAll(g, done, r);
    if !ok {
      return false, done;
    }
    ok := SyncAll(g, done, force, r);
    if !ok {
      return false, done;
    }
    ok := LinkRoot(g, done, force, r);
    WorkableIsNonempty(r, done);
  }

  /** An unforced run inspects stamped agents only, and finds of them what a forced run finds. */
  lemma AsForced(r: Run, plan: seq<Entry>, graph: Graph, force: bool)
    requires PlanFor(r, plan, graph, force)
    ensures PlanFor(r, plan, graph, true)
  {
    hide WellFormed, LoadedGraph, Unsettled, Inspected;
    forall i | 0 <= i < |plan| ensures Inspected(r.before, plan[i], Members(graph)[i], ModeOf(i), true) {
      InspectedAsForced(r.before, plan[i], Members(graph)[i], ModeOf(i), force);
    }
  }

  lemma InspectedAsForced(w: World, e: Entry, p: Project, mode: Mode, force: bool)
    requires Inspected(w, e, p, mode, force)
    ensures Inspected(w, e, p, mode, true)
  {
    hide Settled, ManagedOf, Adopted;
  }

  lemma FreshRoot(r: Run, plan: seq<Entry>)
    requires Workable(r, plan)
    ensures AllFresh(plan) ==> plan[0].existing.None?
  {
  }

  lemma PlanIsReady(r: Run, plan: seq<Entry>, graph: Graph)
    requires PlanFor(r, plan, graph, true) && Traceable(r.before, graph) && MembersReady(r.before, graph)
    ensures AllAttainable(r, plan) && forall i | 0 <= i < |plan| :: Settable(r.before.defaults, plan[i])
  {
    hide PlanFor, Settable, Injective, Attainable, TraceableMember, ReadyMember;
    PlanBasics(r, plan, graph, true);
    forall i | 0 <= i < |plan|
      ensures Settable(r.before.defaults, plan[i]) && Injective(plan[i].prev)
      ensures Attainable(OldTriggers(r, plan[i]), plan[i].project.triggers, plan[i].prev)
    {
      assert TraceableMember(r.before, Members(graph)[i]) && ReadyMember(r.before, Members(graph)[i]);
      ReadyEntry(r, plan, graph, i);
    }
  }

  lemma WorkableIsNonempty(r: Run, plan: seq<Entry>)
    requires Workable(r, plan)
    ensures plan != []
  {
  }

  lemma SamePlanSameTriggers(r: Run, plan: seq<Entry>, done: seq<Entry>)
    requires SamePlan(plan, done)
    ensures AllAttainable(r, plan) ==> AllAttainable(r, done)
    ensures AllFresh(plan) ==> AllFresh(done)
  {
    hide Attainable, Injective;
    assert forall i | 0 <= i < |done| :: done[i].existing == plan[i].existing && done[i].prev == plan[i].prev && done[i].mutate == plan[i].mutate;
    if AllAttainable(r, plan) {
      forall i | 0 <= i < |done| && done[i].mutate
        ensures Injective(done[i].prev) && Attainable(OldTriggers(r, done[i]), done[i].project.triggers, done[i].prev)
      {
        assert done[i].existing == plan[i].existing && done[i].project == plan[i].project && done[i].prev == plan[i].prev;
        assert plan[i].mutate;
      }
    }
  }

  /** A run with something to write. It is safe whatever fails; without faults it succeeds
      exactly when the state was ready and no trigger had to be created, recreated or
      dropped, and from a ready state it leaves one from which the next run succeeds. */
  method RunPlan(g: Gateway, plan: seq<Entry>, force: bool, now: int, ghost r: Run, ghost graph: Graph) returns (ok: bool)
    requires PlanFor(r, plan, graph, force) && g.world == r.before && g.trace == r.earlier
    modifies g
    ensures WellFormed(g.world) && StepsSafe(r, g.trace, graph) && old(g.calls) <= g.calls
    ensures ok ==> g.failed == old(g.failed)
    ensures g.world == r.before || Mid(r, g.world) || AtEnd(r, g.world, graph)
    ensures ok ==> AtEnd(r, g.world, graph) && FreshlyStamped(g.world, plan)
    ensures (force || AllFresh(plan)) && AllDone(g.outcome, old(g.calls)) && Traceable(r.before, graph) ==>
              (ok <==> Ready(r.before, graph) && OneRun(r.before, graph))
    ensures (force || AllFresh(plan)) && AllDone(g.outcome, old(g.calls)) && Traceable(r.before, graph) && Ready(r.before, graph) ==>
              Ready(g.world, graph) && OneRun(g.world, graph) && Traceable(g.world, graph)
  {
    hide StepsMid, StepsSafe, PlanFor, AllStages, LinksMatch, Workable, SamePlan, Mid, MembersReady, LinksReady, Traceable, OneRun,
      Converged, Stage, Verified, Verifiable, StampedFrom, WellFormed, Begun, Assembled;
    var done;
    ok, done := Assemble(g, plan, force, r, graph);
    MidStepsAreSafe(r, g.trace, graph);
    if !ok {
      return false;
    }
    AssembledFacts(r, g.world, plan, done, graph, force);
    var passed, verified := VerifyAll(g, done);
    AsForced(r, plan, graph, force);
    if Traceable(r.before, graph) {
      AssembledWasReady(r, g.world, plan, done, graph);
      if Ready(r.before, graph) {
        AssembledIsReady(r, g.world, plan, done, graph);
      }
      if passed {
        VerifiedBefore(r, g.world, plan, done, verified, graph);
      }
    }
    if !passed {
      return false;
    }
    VerifiedIsStampable(r, g.world, plan, done, verified, graph, force);
    ok := StampAll(g, verified, now, r, graph);
    if ok {
      FreshStamps(g.world, plan, done, verified);
      PlanLoaded(r, plan, graph, force);
      EndConverged(r, g.world, graph);
      ConvergedIsReady(g.world, graph);
    }
  }

  lemma EndConverged(r: Run, w: World, graph: Graph)
    requires AtEnd(r, w, graph)
    ensures WellFormed(w) && Converged(w, graph)
  {
  }

  /** Every agent the run wrote to carries a structurally valid stamp. */
  ghost predicate FreshlyStamped(w: World, plan: seq<Entry>) {
    forall i | 0 <= i < |plan| && plan[i].mutate ::
      exists id :: id in w.agents && w.agents[id].name == plan[i].project.name && WellStamped(w.agents[id].stamp)
  }

  lemma FreshStamps(w: World, plan: seq<Entry>, done: seq<Entry>, verified: seq<Entry>)
    requires SamePlan(plan, done) && SamePlan(done, verified)
    requires forall i | 0 <= i < |verified| :: Final(w, verified[i])
    ensures FreshlyStamped(w, plan)
  {
    hide WellStamped, TriggersMatch, StampMatches;
    forall i | 0 <= i < |plan| && plan[i].mutate
      ensures exists id :: id in w.agents && w.agents[id].name == plan[i].project.name && WellStamped(w.agents[id].stamp)
    {
      assert Final(w, verified[i]) && verified[i].project == plan[i].project && verified[i].mutate;
    }
  }

  lemma PlanLoaded(r: Run, plan: seq<Entry>, graph: Graph, force: bool)
    requires PlanFor(r, plan, graph, force)
    ensures LoadedGraph(graph)
  {
  }

  lemma AssembledFacts(r: Run, w: World, plan: seq<Entry>, done: seq<Entry>, graph: Graph, force: bool)
    requires PlanFor(r, plan, graph, force) && Assembled(r, w, plan, done)
    ensures WellFormed(w) && done != [] && forall i | 0 <= i < |done| :: done[i].agent in w.agents && 0 !in done[i].prev
    ensures Mid(r, w) && SamePlan(plan, done) && AllStages(r, w, done, |done|, LinksDone)
    ensures LinksMatch(w.agents[done[0].agent].links, ChildIds(done)) <==> AllLinkable(OldLinks(r, done[0]), ChildIds(done))
  {
    hide WellFormed, Stage, LinksMatch, AllLinkable, PlanFor;
    PlanIsWorkable(r, plan, graph, force);
    forall i | 0 <= i < |done| ensures done[i].agent in w.agents && 0 !in done[i].prev {
      StagedExists(r, w, done[i], LinksDone);
      assert done[i].prev == plan[i].prev;
    }
  }

  /** The links from the root can be made exactly if none was in the way before. */
  lemma LinksReadyExactly(r: Run, w: World, plan: seq<Entry>, done: seq<Entry>, graph: Graph)
    requires PlanFor(r, plan, graph, true) && SamePlan(plan, done) && AllStages(r, w, done, |done|, LinksDone)
    ensures LinksReady(r.before, graph) <==> AllLinkable(OldLinks(r, done[0]), ChildIds(done))
  {
    hide Linkable, PlanFor, AllStages, SamePlan, LinksReady;
    PlanBasics(r, plan, graph, true);
    SameSize(plan, done);
    if LinksReady(r.before, graph) {
      forall i | 1 <= i < |done| ensures Linkable(OldLinks(r, done[0]), done[i].agent) {
        ChildLinkable(r, w, plan, done, graph, i);
      }
    }
    if AllLinkable(OldLinks(r, done[0]), ChildIds(done)) {
      AllWereLinkable(r, w, plan, done, graph);
    }
  }

  lemma SameSize(plan: seq<Entry>, done: seq<Entry>)
    requires SamePlan(plan, done)
    ensures |done| == |plan|
  {
  }

  lemma StagedAgent(r: Run, w: World, plan: seq<Entry>, done: seq<Entry>, graph: Graph, i: nat)
    requires PlanFor(r, plan, graph, true) && SamePlan(plan, done) && AllStages(r, w, done, |done|, LinksDone) && i < |done|
    ensures |done| == |plan| == |Members(graph)| && done[i].existing == plan[i].existing
    ensures match plan[i].existing
            case None => r.before.nextId <= done[i].agent && Unused(r.before, Members(graph)[i].name)
            case Some(id) => done[i].agent == id && id in r.before.agents && r.before.agents[id].name == Members(graph)[i].name
  {
    hide SyncDone, AgentMatches, Settable, PlanFor;
    PlanBasics(r, plan, graph, true);
    EntryFacts(r, plan, graph, true, i);
    assert Stage(r, w, done[i], LinksDone);
    assert done[i] == plan[i].(agent := done[i].agent, managed := done[i].managed);
  }

  lemma ChildLinkable(r: Run, w: World, plan: seq<Entry>, done: seq<Entry>, graph: Graph, i: nat)
    requires PlanFor(r, plan, graph, true) && SamePlan(plan, done) && AllStages(r, w, done, |done|, LinksDone)
    requires 1 <= i < |done| && LinksReady(r.before, graph)
    ensures Linkable(OldLinks(r, done[0]), done[i].agent)
  {
    hide AllStages, SamePlan;
    StagedAgent(r, w, plan, done, graph, 0);
    StagedAgent(r, w, plan, done, graph, i);
    assert Members(graph)[0] == graph.root;
    if done[0].existing.Some? && done[i].existing.None? {
      NewIsLinkable(r.before, done[0].existing.value, done[i].agent);
    }
    hide PlanFor;
  }

  lemma NewIsLinkable(w: World, root: Id, id: Id)
    requires WellFormed(w) && root in w.agents && w.nextId <= id
    ensures Linkable(w.agents[root].links, id)
  {
    assert AgentOk(w.agents[root], w.nextId);
  }

  lemma AllWereLinkable(r: Run, w: World, plan: seq<Entry>, done: seq<Entry>, graph: Graph)
    requires PlanFor(r, plan, graph, true) && SamePlan(plan, done) && AllStages(r, w, done, |done|, LinksDone)
    requires AllLinkable(OldLinks(r, done[0]), ChildIds(done))
    ensures LinksReady(r.before, graph)
  {
    hide AllStages, SamePlan, Linkable, PlanFor;
    PlanBasics(r, plan, graph, true);
    SameSize(plan, done);
    StagedAgent(r, w, plan, done, graph, 0);
    assert Members(graph)[0] == graph.root;
    forall root, child, i | root in r.before.agents && r.before.agents[root].name == graph.root.name && 1 <= i < |Members(graph)|
                            && child in r.before.agents && r.before.agents[child].name == Members(graph)[i].name
      ensures Linkable(r.before.agents[root].links, child)
    {
      StagedAgent(r, w, plan, done, graph, i);
      OnlyOneNamed(r.before, root);
      OnlyOneNamed(r.before, child);
      hide WellFormed;
      assert done[i].agent == child && child in ChildIds(done);
    }
  }

  lemma AssembledWasReady(r: Run, w: World, plan: seq<Entry>, done: seq<Entry>, graph: Graph)
    requires PlanFor(r, plan, graph, true) && Traceable(r.before, graph) && Assembled(r, w, plan, done)
    ensures MembersReady(r.before, graph)
    ensures LinksReady(r.before, graph) <==> AllLinkable(OldLinks(r, done[0]), ChildIds(done))
    ensures OneRun(r.before, graph) <==> forall i | 0 <= i < |done| :: Verifiable(w, done[i])
  {
    hide Mid, Stage, LinksMatch, AllLinkable, Verifiable, Verified, ReadyMember, OneRunMember, TraceableMember, PlanFor, LinksReady;
    PlanIsWorkable(r, plan, graph, true);
    LinksReadyExactly(r, w, plan, done, graph);
    forall i | 0 <= i < |done|
      ensures ReadyMember(r.before, Members(graph)[i])
      ensures Verifiable(w, done[i]) <==> OneRunMember(r.before, Members(graph)[i])
    {
      assert Stage(r, w, done[i], LinksDone) && TraceableMember(r.before, Members(graph)[i]);
      StagedWasReady(r, w, plan, done[i], graph, i);
      VerifiableExactly(r, w, plan, done[i], graph, i);
    }
  }

  lemma AssembledIsReady(r: Run, w: World, plan: seq<Entry>, done: seq<Entry>, graph: Graph)
    requires PlanFor(r, plan, graph, true) && Assembled(r, w, plan, done)
    requires LinksMatch(w.agents[done[0].agent].links, ChildIds(done))
    ensures Ready(w, graph) && OneRun(w, graph) && Traceable(w, graph)
  {
    hide Mid, Stage, LinksMatch, AllLinkable, ReadyMember, OneRunMember, TraceableMember, PlanFor, LinksReady;
    PlanIsWorkable(r, plan, graph, true);
    forall i | 0 <= i < |done|
      ensures ReadyMember(w, Members(graph)[i]) && OneRunMember(w, Members(graph)[i]) && TraceableMember(w, Members(graph)[i])
      ensures done[i].agent in w.agents && w.agents[done[i].agent].name == Members(graph)[i].name
    {
      assert Stage(r, w, done[i], LinksDone);
      UnverifiedIsReady(r, w, plan, done[i], graph, i);
      StagedExists(r, w, done[i], LinksDone);
      assert done[i].project == plan[i].project;
    }
    MidIsWellFormed(r, w);
    var ids := seq(|done|, i requires 0 <= i < |done| => done[i].agent);
    assert forall i | 0 <= i < |done| :: ids[i] == done[i].agent;
    assert (set i | 1 <= i < |ids| :: ids[i]) == ChildIds(done);
    MatchedLinksAreReady(w, graph, ids);
  }

  lemma MidIsWellFormed(r: Run, w: World)
    requires Mid(r, w)
    ensures WellFormed(w)
  {
  }

  lemma VerifiedBefore(r: Run, w: World, plan: seq<Entry>, done: seq<Entry>, verified: seq<Entry>, graph: Graph)
    requires PlanFor(r, plan, graph, true) && Traceable(r.before, graph) && Assembled(r, w, plan, done)
    requires SamePlan(done, verified) && forall i | 0 <= i < |done| :: verified[i].agent == done[i].agent && Verified(w, verified[i])
    ensures OneRun(r.before, graph)
  {
    hide Mid, Stage, LinksMatch, AllLinkable, Verifiable, Verified, TraceableMember, OneRunMember, PlanFor;
    PlanIsWorkable(r, plan, graph, true);
    forall i | 0 <= i < |done| ensures OneRunMember(r.before, Members(graph)[i]) {
      assert TraceableMember(r.before, Members(graph)[i]);
      assert Stage(r, w, done[i], LinksDone);
      StageIgnoresManaged(r, w, done[i], verified[i].managed);
      VerifiableExactly(r, w, plan, verified[i], graph, i);
    }
  }

  lemma StageIgnoresManaged(r: Run, w: World, e: Entry, managed: map<Id, string>)
    requires Stage(r, w, e, LinksDone)
    ensures Stage(r, w, e.(managed := managed), LinksDone)
  {
  }

  // ----- The deployment of one graph

  ghost predicate Compiles(graph: Graph) {
    forall i | 0 <= i < |Members(graph)| :: Members(graph)[i].compiles
  }

  /** Stamps are either absent or structurally valid. */
  ghost predicate StampsValid(w: World, graph: Graph) {
    forall i, id | 0 <= i < |Members(graph)| && id in w.agents && w.agents[id].name == Members(graph)[i].name ::
      w.agents[id].stamp.Some? ==> WellStamped(w.agents[id].stamp)
  }

  /** A run writes to agents of its graph only, and to a child only if it is not as its
      project says. */
  ghost predicate OnlyUnsettled(r: Run, graph: Graph) {
    && (forall name | name in r.names :: exists i :: 0 <= i < |Members(graph)| && Members(graph)[i].name == name)
    && forall i, id | 1 <= i < |Members(graph)| && Members(graph)[i].name in r.names
                      && id in r.before.agents && r.before.agents[id].name == Members(graph)[i].name ::
         !Settled(r.before.agents[id], Members(graph)[i], ModeOf(i))
  }

  lemma PlanIsOnlyUnsettled(r: Run, plan: seq<Entry>, graph: Graph, force: bool)
    requires PlanFor(r, plan, graph, force)
    ensures OnlyUnsettled(r, graph)
  {
    hide Settled, Loaded, AllInspected, AgentOk;
    PlanBasics(r, plan, graph, force);
    var ms := Members(graph);
    forall i | 0 <= i < |plan|
      ensures plan[i].project == ms[i] && plan[i].mode == ModeOf(i)
      ensures plan[i].existing.Some? ==> plan[i].existing.value in r.before.agents && r.before.agents[plan[i].existing.value].name == ms[i].name
      ensures plan[i].existing.None? ==> Unused(r.before, ms[i].name)
      ensures forall j | 0 <= j < |plan| && j != i :: plan[j].project.name != plan[i].project.name
    {
      EntryFacts(r, plan, graph, force, i);
    }
    forall i, id | 1 <= i < |ms| && ms[i].name in r.names && id in r.before.agents && r.before.agents[id].name == ms[i].name
      ensures !Settled(r.before.agents[id], ms[i], ModeOf(i))
    {
      assert plan[i].existing == Some(id);
      assert plan[i].mutate;
      assert Unsettled(r.before, plan[i]);
    }
  }

  /** What an unforced run accepts of agents that exist is valid and settled. */
  lemma UnforcedFits(w: World, plan: seq<Entry>, graph: Graph)
    requires WellFormed(w) && Planned(w, plan, graph, false)
    ensures WellStampedAll(w, graph)
  {
    hide Settled, WellStamped, RootLinked, AgentOk, Unsettled;
    var ms := Members(graph);
    forall i | 0 <= i < |ms| ensures AllFit(w, ms[i], ModeOf(i)) {
      assert Inspected(w, plan[i], ms[i], ModeOf(i), false);
    }
  }

  lemma FitIsValid(w: World, graph: Graph)
    requires WellStampedAll(w, graph)
    ensures StampsValid(w, graph)
  {
    hide Settled, WellStamped;
    forall i, id | 0 <= i < |Members(graph)| && id in w.agents && w.agents[id].name == Members(graph)[i].name
      ensures w.agents[id].stamp.Some? ==> WellStamped(w.agents[id].stamp)
    {
      assert AllFit(w, Members(graph)[i], ModeOf(i));
    }
  }

  lemma ConvergedFits(w: World, graph: Graph)
    requires WellFormed(w) && Converged(w, graph) && StampsValid(w, graph)
    ensures WellStampedAll(w, graph)
  {
    hide TriggersMatch, StampMatches, WellStamped, LinksMatch, AgentOk, ManagedOf;
    var ids :| ConvergedAt(w, graph, ids);
    forall i | 0 <= i < |Members(graph)| ensures AllFit(w, Members(graph)[i], ModeOf(i)) {
      assert Settled(w.agents[ids[i]], Members(graph)[i], ModeOf(i));
    }
  }

  /** Agents without writes keep their stamps and the others get fresh ones. */
  lemma StampsAfter(r: Run, w: World, plan: seq<Entry>, graph: Graph, force: bool)
    requires PlanFor(r, plan, graph, force) && StampsValid(r.before, graph)
    requires WellFormed(w) && Confined(r.before, w, r.names) && FreshlyStamped(w, plan)
    ensures StampsValid(w, graph)
  {
    hide Settled, WellStamped, AllInspected, Loaded, AgentOk, Unsettled;
    PlanBasics(r, plan, graph, force);
    var ms := Members(graph);
    forall i, id | 0 <= i < |ms| && id in w.agents && w.agents[id].name == ms[i].name
      ensures w.agents[id].stamp.Some? ==> WellStamped(w.agents[id].stamp)
    {
      EntryFacts(r, plan, graph, force, i);
      if ms[i].name in r.names {
        var j :| 0 <= j < |plan| && plan[j].mutate && plan[j].project.name == ms[i].name;
        assert exists other :: other in w.agents && w.agents[other].name == plan[j].project.name && WellStamped(w.agents[other].stamp);
      } else {
        assert id in r.before.agents && w.agents[id] == r.before.agents[id];
      }
    }
  }
}
