/** Deploying a project graph: preflight, then writes in an order that makes the root's
    stamp the success marker of the whole graph. */
module Deploy {
  import opened Basics
  import opened Fleet
  import opened Triggers
  import opened Links
  import opened Projects

  /** One project of the graph during a run. `existing` is the agent found by name, `prev`
      the trigger ownership recorded before the run, `managed` the ownership verified at
      its end, `agent` the agent the run works on. */
  datatype Entry = Entry(
    project: Project, mode: Mode, existing: Option<Id>, prev: map<Id, string>,
    managed: map<Id, string>, mutate: bool, agent: Id)

  // ----- Convergence

  /** The stored agent, its active revision and its triggers are as the project says. */
  ghost predicate Settled(a: Agent, p: Project, mode: Mode) {
    && AgentMatches(a, p, mode, true)
    && a.active == Some(p.digest)
    && TriggersMatch(a.triggers, p.triggers, ManagedOf(a.stamp))
  }

  ghost predicate ConvergedAt(w: World, graph: Graph, ids: seq<Id>) {
    var ms := Members(graph);
    && |ids| == |ms|
    && (forall i | 0 <= i < |ms| :: ids[i] in w.agents && Settled(w.agents[ids[i]], ms[i], ModeOf(i)))
    && LinksMatch(w.agents[ids[0]].links, set i | 1 <= i < |ids| :: ids[i])
  }

  /** Everything the stored state holds about the graph is as its projects say. */
  ghost predicate Converged(w: World, graph: Graph) {
    exists ids :: ConvergedAt(w, graph, ids)
  }

  /** The agent is what the project says, field by field. */
  ghost predicate Embodies(a: Agent, p: Project) {
    && a.name == p.name && a.definition == p.definition && a.active == Some(p.digest)
    && a.stamp.Some? && a.stamp.value.Stamp? && a.stamp.value.source == "evs deploy" && a.stamp.value.format == 2
    && a.stamp.value.hash == p.hash && a.stamp.value.paths == p.paths
    && (forall i | 0 <= i < |p.triggers| :: Bears(a.triggers, p.triggers[i]))
  }

  ghost predicate Bears(triggers: map<Id, TriggerSpec>, t: TriggerSpec) {
    exists id :: id in triggers && triggers[id] == t && forall other | other in triggers && triggers[other].name == t.name :: other == id
  }

  ghost predicate EmbodiedBy(w: World, p: Project, mode: Mode) {
    exists id :: id in w.agents && Embodies(w.agents[id], p) && w.agents[id].mode == mode
  }

  lemma SettledEmbodies(a: Agent, p: Project, mode: Mode)
    requires Settled(a, p, mode)
    ensures Embodies(a, p) && a.mode == mode
  {
    forall i | 0 <= i < |p.triggers| ensures Bears(a.triggers, p.triggers[i]) {
      assert Served(a.triggers, ManagedOf(a.stamp), p.triggers[i]);
      var id :| Serves(a.triggers, ManagedOf(a.stamp), id, p.triggers[i]);
    }
  }

  /** In a converged state there is an agent for the root, a primary one, and one for every
      child, a subagent; each is what its project says, and the root's subordinate links
      lead to the children and nowhere else. */
  lemma ConvergedSays(w: World, graph: Graph)
    requires Converged(w, graph)
    ensures EmbodiedBy(w, graph.root, Primary) && forall c | c in graph.children :: EmbodiedBy(w, c, Subagent)
    ensures exists root :: root in w.agents && w.agents[root].name == graph.root.name && LeadsToChildren(w, w.agents[root].links, graph.children)
  {
    hide Settled, Embodies, LinksMatch;
    var ids :| ConvergedAt(w, graph, ids);
    var ms := Members(graph);
    forall i | 0 <= i < |ms| ensures EmbodiedBy(w, ms[i], ModeOf(i)) && w.agents[ids[i]].name == ms[i].name {
      SettledEmbodies(w.agents[ids[i]], ms[i], ModeOf(i));
      NameEmbodied(w.agents[ids[i]], ms[i]);
    }
    assert ms[0] == graph.root;
    forall c | c in graph.children ensures EmbodiedBy(w, c, Subagent) {
      var i :| 0 <= i < |graph.children| && graph.children[i] == c;
      assert ms[i + 1] == c;
    }
    MatchLeadsToChildren(w, graph, ids);
  }

  lemma NameEmbodied(a: Agent, p: Project)
    requires Embodies(a, p)
    ensures a.name == p.name
  {
  }

  /** The targets of the subordinate links are the agents named like the children. */
  ghost predicate LeadsToChildren(w: World, links: seq<Link>, children: seq<Project>) {
    && (forall l | l in links && l.kind == Subordinate && l.targetType == "agent" :: NamesChild(w, l, children))
    && (forall c | c in children :: HasLinkTo(w, links, c.name))
  }

  ghost predicate NamesChild(w: World, l: Link, children: seq<Project>) {
    l.target in w.agents && exists c :: c in children && c.name == w.agents[l.target].name
  }

  ghost predicate HasLinkTo(w: World, links: seq<Link>, name: string) {
    exists l :: l in links && l.kind == Subordinate && l.targetType == "agent" && l.target in w.agents && w.agents[l.target].name == name
  }

  lemma MatchLeadsToChildren(w: World, graph: Graph, ids: seq<Id>)
    requires ConvergedAt(w, graph, ids)
    requires forall i | 0 <= i < |ids| :: w.agents[ids[i]].name == Members(graph)[i].name
    ensures LeadsToChildren(w, w.agents[ids[0]].links, graph.children)
  {
    hide Settled;
    var links, ms, desired := w.agents[ids[0]].links, Members(graph), set i | 1 <= i < |ids| :: ids[i];
    forall l | l in links && l.kind == Subordinate && l.targetType == "agent" ensures NamesChild(w, l, graph.children) {
      assert IsSubordinate(l) && l.target in desired;
      var i :| 1 <= i < |ids| && ids[i] == l.target;
      assert ms[i] == graph.children[i - 1];
    }
    forall c | c in graph.children ensures HasLinkTo(w, links, c.name) {
      var i :| 0 <= i < |graph.children| && graph.children[i] == c;
      assert ms[i + 1] == c && ids[i + 1] in desired;
      assert Leads(links, ids[i + 1]);
    }
  }

  // ----- Preflight

  ghost function PrevOf(a: Agent, p: Project, force: bool): map<Id, string> {
    if force && a.stamp.None? then Adopted(a.triggers, p.triggers) else ManagedOf(a.stamp)
  }

  ghost predicate Unused(w: World, name: string) {
    forall a | a in w.agents :: w.agents[a].name != name
  }

  /** What the preflight found out about one project, apart from whether it needs writes. */
  ghost predicate Inspected(w: World, e: Entry, p: Project, mode: Mode, force: bool) {
    && e.project == p && e.mode == mode
    && match e.existing
       case None => Unused(w, p.name) && e.prev == map[]
       case Some(id) =>
         && id in w.agents && w.agents[id].name == p.name
         && e.prev == PrevOf(w.agents[id], p, force)
         && (!force ==> WellStamped(w.agents[id].stamp) && Settled(w.agents[id], p, mode))
  }

  ghost predicate Unsettled(w: World, e: Entry) {
    e.existing.Some? && e.existing.value in w.agents ==> !Settled(w.agents[e.existing.value], e.project, e.mode)
  }

  /** An agent of the project's name, if there is one, passes an unforced comparison. */
  ghost predicate AllFit(w: World, p: Project, mode: Mode) {
    forall id | id in w.agents && w.agents[id].name == p.name ::
      WellStamped(w.agents[id].stamp) && Settled(w.agents[id], p, mode)
  }

  lemma ManagedOfHasNoZero(stamp: Option<Stamp>)
    ensures 0 !in ManagedOf(stamp)
  {
    if 0 in ManagedOf(stamp) {
      var _ := ManagedComesFrom(stamp.value.managed.entries, 0);
    }
  }

  method Inspect(g: Gateway, p: Project, mode: Mode, force: bool) returns (ok: bool, e: Entry)
    requires WellFormed(g.world) && Loaded(p.triggers)
    modifies g`calls, g`failed
    ensures old(g.calls) <= g.calls
    ensures ok ==> g.failed == old(g.failed)
    ensures ok ==> Inspected(g.world, e, p, mode, force) && (e.mutate <==> Unsettled(g.world, e))
    ensures AllDone(g.outcome, old(g.calls)) && force ==> ok
    ensures AllDone(g.outcome, old(g.calls)) && AllFit(g.world, p, mode) ==> ok
  {
    hide WellFormed, Loaded, TriggersMatch, ManagedOf, Adopted, Injective;
    e := Entry(p, mode, None, map[], map[], true, 0);
    var listing := g.Read();
    if !listing {
      return false, e;
    }
    if forall id | id in g.world.agents :: g.world.agents[id].name != p.name {
      return true, e;
    }
    var id :| id in g.world.agents && g.world.agents[id].name == p.name;
    var a := g.world.agents[id];
    var revision := g.Read();
    if !revision {
      return false, e;
    }
    var prev := StampManagedTriggers(a.stamp);
    ManagedOfHasNoZero(a.stamp);
    var triggers := g.Read();
    if !triggers {
      return false, e;
    }
    if force && a.stamp.None? {
      prev := AdoptLegacyTriggers(a.triggers, p.triggers);
      assert 0 !in prev by { AdoptedHasNoZero(a.triggers, p.triggers); }
    }
    var triggersMatch := DeclaredTriggersMatch(a.triggers, p.triggers, prev);
    var matches := AgentMatches(a, p, mode, true) && a.active == Some(p.digest) && triggersMatch;
    if AgentMatches(a, p, mode, true) {
      MatchingStampIsInjective(a.stamp.value, p);
      assert matches <==> Settled(a, p, mode);
    }
    if !force {
      var valid := CheckDrift(a.stamp);
      if !valid || a.stamp.value.hash != p.hash || !matches {
        return false, e;
      }
    }
    e := e.(existing := Some(id), prev := prev, mutate := !matches);
    ok := true;
  }

  lemma AdoptedHasNoZero(actual: map<Id, TriggerSpec>, decl: seq<TriggerSpec>)
    ensures 0 !in Adopted(actual, decl)
  {
  }

  ghost predicate AllInspected(w: World, plan: seq<Entry>, ms: seq<Project>, force: bool) {
    && |plan| <= |ms|
    && forall i | 0 <= i < |plan| :: Inspected(w, plan[i], ms[i], ModeOf(i), force)
  }

  ghost predicate RootLinked(w: World, plan: seq<Entry>) {
    && (forall i | 0 <= i < |plan| :: plan[i].existing.Some?)
    && plan != [] && plan[0].existing.value in w.agents
    && LinksMatch(w.agents[plan[0].existing.value].links, set i | 1 <= i < |plan| :: plan[i].existing.value)
  }

  /** A complete preflight: which projects need writes, and what an unforced run refuses. */
  ghost predicate Planned(w: World, plan: seq<Entry>, graph: Graph, force: bool) {
    && |plan| == |Members(graph)| && AllInspected(w, plan, Members(graph), force)
    && (forall i | 1 <= i < |plan| :: plan[i].mutate <==> Unsettled(w, plan[i]))
    && (plan[0].mutate <==> Unsettled(w, plan[0]) || !RootLinked(w, plan))
    && (!force && plan[0].existing.Some? ==> RootLinked(w, plan))
  }

  /** The state every unforced run accepts: all stamps structurally valid, and converged. */
  ghost predicate WellStampedAll(w: World, graph: Graph) {
    forall i | 0 <= i < |Members(graph)| :: AllFit(w, Members(graph)[i], ModeOf(i))
  }

  lemma InspectedExists(w: World, e: Entry, p: Project, mode: Mode, force: bool)
    requires Inspected(w, e, p, mode, force) && e.existing.Some?
    ensures e.existing.value in w.agents && w.agents[e.existing.value].name == p.name
  {
  }

  /** Raising the mutation mark changes nothing that the preflight found out. */
  lemma MarkRoot(w: World, plan: seq<Entry>, ms: seq<Project>, force: bool, mutate: bool)
    requires plan != [] && AllInspected(w, plan, ms, force)
    ensures var plan' := plan[0 := plan[0].(mutate := mutate)];
            && AllInspected(w, plan', ms, force)
            && (RootLinked(w, plan') <==> RootLinked(w, plan))
            && (forall i | 0 <= i < |plan| :: Unsettled(w, plan'[i]) <==> Unsettled(w, plan[i]))
  {
    hide Settled, LinksMatch, WellStamped;
    var plan' := plan[0 := plan[0].(mutate := mutate)];
    forall i | 0 <= i < |plan| ensures Inspected(w, plan'[i], ms[i], ModeOf(i), force) {
      assert Inspected(w, plan[i], ms[i], ModeOf(i), force);
    }
    if RootLinked(w, plan) || RootLinked(w, plan') {
      assert forall i | 0 <= i < |plan| :: plan'[i].existing == plan[i].existing;
      assert (set i | 1 <= i < |plan| :: plan[i].existing.value) == set i | 1 <= i < |plan'| :: plan'[i].existing.value;
    }
  }

  lemma NotUnused(w: World, id: Id)
    requires id in w.agents
    ensures !Unused(w, w.agents[id].name)
  {
  }

  method CompareLinks(links: seq<Link>, plan: seq<Entry>) returns (ok: bool)
    requires plan != []
    ensures ok <==> (forall i | 1 <= i < |plan| :: plan[i].existing.Some?) &&
                    LinksMatch(links, set i | 1 <= i < |plan| :: plan[i].existing.value)
  {
    hide LinksMatch;
    var desired: set<Id> := {};
    for i := 1 to |plan|
      invariant forall k | 1 <= k < i :: plan[k].existing.Some?
      invariant desired == set k | 1 <= k < i :: plan[k].existing.value
    {
      if plan[i].existing.None? {
        return false;
      }
      desired := desired + {plan[i].existing.value};
    }
    ok := SubordinateLinksMatch(links, desired);
  }

  /** In a converged state the preflight finds exactly the converged agents. */
  lemma ConvergedIsFound(w: World, graph: Graph, ids: seq<Id>, plan: seq<Entry>, force: bool, i: nat)
    requires WellFormed(w) && ConvergedAt(w, graph, ids)
    requires i < |plan| && AllInspected(w, plan, Members(graph), force)
    ensures plan[i].existing == Some(ids[i])
  {
    hide LinksMatch, TriggersMatch, WellStamped;
    var p := Members(graph)[i];
    assert Inspected(w, plan[i], p, ModeOf(i), force);
    assert w.agents[ids[i]].name == p.name;
  }

  lemma ConvergedIsLinked(w: World, graph: Graph, plan: seq<Entry>, force: bool)
    requires WellFormed(w) && Converged(w, graph)
    requires |plan| == |Members(graph)| && AllInspected(w, plan, Members(graph), force)
    ensures RootLinked(w, plan)
    ensures forall i | 0 <= i < |plan| :: plan[i].existing.Some? && !Unsettled(w, plan[i])
  {
    hide LinksMatch, Settled, Inspected, AgentOk;
    var ids :| ConvergedAt(w, graph, ids);
    forall i | 0 <= i < |plan| ensures plan[i].existing == Some(ids[i]) && plan[i].project == Members(graph)[i] && plan[i].mode == ModeOf(i) {
      ConvergedIsFound(w, graph, ids, plan, force, i);
      InspectedIsOf(w, plan[i], Members(graph)[i], ModeOf(i), force);
    }
    assert (set i | 1 <= i < |plan| :: plan[i].existing.value) == set i | 1 <= i < |ids| :: ids[i];
  }

  lemma InspectedIsOf(w: World, e: Entry, p: Project, mode: Mode, force: bool)
    requires Inspected(w, e, p, mode, force)
    ensures e.project == p && e.mode == mode
  {
  }

  method Preflight(g: Gateway, graph: Graph, force: bool) returns (ok: bool, plan: seq<Entry>)
    requires WellFormed(g.world) && LoadedGraph(graph)
    modifies g`calls, g`failed
    ensures old(g.calls) <= g.calls
    ensures ok ==> g.failed == old(g.failed)
    ensures ok ==> Planned(g.world, plan, graph, force)
    ensures AllDone(g.outcome, old(g.calls)) && force ==> ok
    ensures AllDone(g.outcome, old(g.calls)) && WellStampedAll(g.world, graph) && Converged(g.world, graph) ==> ok
    ensures AllDone(g.outcome, old(g.calls)) && WellStampedAll(g.world, graph) && Unused(g.world, graph.root.name) ==> ok
  {
    hide WellFormed, Loaded, Inspected, Settled, WellStamped, LinksMatch, AllFit, Unsettled, Unused;
    var ms := Members(graph);
    plan := [];
    for i := 0 to |ms|
      invariant |plan| == i && old(g.calls) <= g.calls && g.failed == old(g.failed)
      invariant AllInspected(g.world, plan, ms, force)
      invariant forall k | 0 <= k < i :: plan[k].mutate <==> Unsettled(g.world, plan[k])
    {
      var inspected, e := Inspect(g, ms[i], ModeOf(i), force);
      if !inspected {
        return false, plan;
      }
      plan := plan + [e];
    }
    var linked := false;
    if plan[0].existing.Some? {
      var listing := g.Read();
      if !listing {
        return false, plan;
      }
      InspectedExists(g.world, plan[0], ms[0], Primary, force);
      NotUnused(g.world, plan[0].existing.value);
      linked := CompareLinks(g.world.agents[plan[0].existing.value].links, plan);
      if Converged(g.world, graph) {
        ConvergedIsLinked(g.world, graph, plan, force);
      }
      if !linked && !force {
        return false, plan;
      }
    }
    MarkRoot(g.world, plan, ms, force, plan[0].mutate || !linked);
    plan := plan[0 := plan[0].(mutate := plan[0].mutate || !linked)];
    ok := true;
  }
}
