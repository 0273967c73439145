/** What a stamped root is worth when many graphs are deployed into one organisation. */
module Honesty {
  import opened Basics
  import opened Fleet
  import opened Triggers
  import opened Links
  import opened Projects
  import opened Deploy
  import opened Rollout
  import opened Deployment
  import opened Attempts

  // ----- When two graphs can be deployed side by side

  function TriggerSet(p: Project): set<TriggerSpec> {
    set i | 0 <= i < |p.triggers| :: p.triggers[i]
  }

  /** Two projects that leave the same agent behind. */
  ghost predicate SameDeployment(p: Project, q: Project) {
    && p.name == q.name && p.definition == q.definition && p.digest == q.digest && p.hash == q.hash && p.paths == q.paths
    && multiset(TriggerNames(p.triggers)) == multiset(TriggerNames(q.triggers)) && TriggerSet(p) == TriggerSet(q)
  }

  /** Two graphs agree on every agent name they share. */
  ghost predicate Agree(a: Graph, b: Graph) {
    forall i, j | 0 <= i < |Members(a)| && 0 <= j < |Members(b)| && Members(a)[i].name == Members(b)[j].name ::
      ModeOf(i) == ModeOf(j) && SameDeployment(Members(a)[i], Members(b)[j])
  }

  lemma TriggersMatchBySet(actual: map<Id, TriggerSpec>, p: Project, q: Project, prev: map<Id, string>)
    requires TriggersMatch(actual, p.triggers, prev) && TriggerSet(p) == TriggerSet(q)
    ensures TriggersMatch(actual, q.triggers, prev)
  {
    forall i | 0 <= i < |q.triggers| ensures Served(actual, prev, q.triggers[i]) {
      assert q.triggers[i] in TriggerSet(p);
    }
    forall id | id in prev ensures Declares(q.triggers, prev[id]) {
      var i :| 0 <= i < |p.triggers| && p.triggers[i].name == prev[id];
      assert p.triggers[i] in TriggerSet(q);
    }
  }

  lemma SettledBySameDeployment(a: Agent, p: Project, q: Project, mode: Mode)
    requires Settled(a, p, mode) && SameDeployment(p, q)
    ensures Settled(a, q, mode)
  {
    hide TriggersMatch, ManagedOf, TriggerSet;
    TriggersMatchBySet(a.triggers, p, q, ManagedOf(a.stamp));
  }

  lemma SettledTriggers(w: World, id: Id, p: Project, q: Project)
    requires id in w.agents && UniqueNames(w.agents[id].triggers)
    requires TriggersMatch(w.agents[id].triggers, p.triggers, ManagedOf(w.agents[id].stamp))
    requires TriggersMatch(w.agents[id].triggers, q.triggers, ManagedOf(w.agents[id].stamp))
    requires multiset(TriggerNames(p.triggers)) == multiset(TriggerNames(q.triggers))
    ensures TriggerSet(p) <= TriggerSet(q)
  {
    hide ManagedOf;
    var actual, prev := w.agents[id].triggers, ManagedOf(w.agents[id].stamp);
    forall t | t in TriggerSet(p) ensures t in TriggerSet(q) {
      var i :| 0 <= i < |p.triggers| && p.triggers[i] == t;
      assert TriggerNames(p.triggers)[i] in multiset(TriggerNames(p.triggers));
      assert t.name in TriggerNames(q.triggers);
      var j :| 0 <= j < |q.triggers| && TriggerNames(q.triggers)[j] == t.name;
      assert Served(actual, prev, p.triggers[i]) && Served(actual, prev, q.triggers[j]);
    }
  }

  /** One agent settles two projects only if they leave the same agent behind. */
  lemma SettledTwice(w: World, id: Id, p: Project, pm: Mode, q: Project, qm: Mode)
    requires WellFormed(w) && id in w.agents
    requires Settled(w.agents[id], p, pm) && Settled(w.agents[id], q, qm)
    ensures pm == qm && SameDeployment(p, q)
  {
    hide WellFormed, TriggersMatch, ManagedOf, UniqueNames, TriggerSet;
    AgentTriggersOk(w, id);
    SettledTriggers(w, id, p, q);
    SettledTriggers(w, id, q, p);
  }

  lemma SettledName(a: Agent, p: Project, mode: Mode)
    requires Settled(a, p, mode)
    ensures a.name == p.name
  {
  }

  /** Two graphs can be converged at once only if they agree. */
  lemma BothConvergedAgree(w: World, a: Graph, b: Graph)
    requires WellFormed(w) && Converged(w, a) && Converged(w, b)
    ensures Agree(a, b)
  {
    hide Settled, LinksMatch, SameDeployment, AgentOk;
    var ids :| ConvergedAt(w, a, ids);
    var jds :| ConvergedAt(w, b, jds);
    forall i, j | 0 <= i < |Members(a)| && 0 <= j < |Members(b)| && Members(a)[i].name == Members(b)[j].name
      ensures ModeOf(i) == ModeOf(j) && SameDeployment(Members(a)[i], Members(b)[j])
    {
      SettledName(w.agents[ids[i]], Members(a)[i], ModeOf(i));
      SettledName(w.agents[jds[j]], Members(b)[j], ModeOf(j));
      assert ids[i] == jds[j];
      SettledTwice(w, ids[i], Members(a)[i], ModeOf(i), Members(b)[j], ModeOf(j));
    }
  }

  /** A run does not write to the agents of a converged graph that agrees with its own. */
  lemma SharedAgentIsSpared(r: Run, a: Graph, b: Graph, ids: seq<Id>, i: nat)
    requires WellFormed(r.before) && ConvergedAt(r.before, a, ids) && i < |ids|
    requires OnlyUnsettled(r, b) && Agree(a, b) && a.root.name != b.root.name
    ensures r.before.agents[ids[i]].name !in r.names
  {
    hide Settled, SameDeployment, LinksMatch, WellFormed;
    var p := Members(a)[i];
    SettledName(r.before.agents[ids[i]], p, ModeOf(i));
    if p.name in r.names {
      var j :| 0 <= j < |Members(b)| && Members(b)[j].name == p.name;
      assert ModeOf(i) == ModeOf(j) && SameDeployment(p, Members(b)[j]);
      assert Members(a)[0] == a.root && Members(b)[0] == b.root;
      assert j != 0;
      SettledBySameDeployment(r.before.agents[ids[i]], p, Members(b)[j], ModeOf(j));
    }
  }

  lemma ConvergedElsewhere(r: Run, w: World, a: Graph, b: Graph)
    requires WellFormed(r.before) && Converged(r.before, a) && Confined(r.before, w, r.names)
    requires OnlyUnsettled(r, b) && Agree(a, b) && a.root.name != b.root.name
    ensures Converged(w, a)
  {
    hide WellFormed, Settled, OnlyUnsettled, Agree, LinksMatch;
    var ids :| ConvergedAt(r.before, a, ids);
    forall i | 0 <= i < |ids| ensures ids[i] in w.agents && w.agents[ids[i]] == r.before.agents[ids[i]] {
      SharedAgentIsSpared(r, a, b, ids, i);
    }
    assert ConvergedAt(w, a, ids);
  }

  /** After a successful run for `b`, a graph of another root that was converged before is
      still converged exactly if the two agree on the agents they share. */
  lemma SurvivesExactly(r: Run, w: World, a: Graph, b: Graph)
    requires WellFormed(r.before) && Converged(r.before, a) && a.root.name != b.root.name
    requires OnlyUnsettled(r, b) && AtEnd(r, w, b)
    ensures Converged(w, a) <==> Agree(a, b)
  {
    hide OnlyUnsettled, Confined, Converged, Agree, WellFormed;
    if Agree(a, b) {
      ConvergedElsewhere(r, w, a, b);
    }
    if Converged(w, a) {
      BothConvergedAgree(w, a, b);
    }
  }

  /** The root of a graph that no other graph names keeps its stamp whatever the run does. */
  lemma ForeignRootKeepsStamp(r: Run, w: World, b: Graph, id: Id)
    requires OnlyUnsettled(r, b) && Confined(r.before, w, r.names) && id in r.before.agents
    requires forall j | 0 <= j < |Members(b)| :: Members(b)[j].name != r.before.agents[id].name
    ensures id in w.agents && w.agents[id] == r.before.agents[id]
  {
  }

  // ----- Honesty

  ghost predicate Compatible(known: set<Graph>) {
    forall a, b | a in known && b in known && a.root.name != b.root.name :: Agree(a, b)
  }

  ghost predicate Backed(w: World, known: set<Graph>, root: string) {
    exists q | q in known :: q.root.name == root && Converged(w, q)
  }

  /** Whenever the root agent of a known graph carries a stamp, everything stored is as some
      known version of that graph says. */
  ghost predicate Honest(w: World, known: set<Graph>) {
    forall q, id | q in known && id in w.agents && w.agents[id].name == q.root.name && w.agents[id].stamp.Some? ::
      Backed(w, known, q.root.name)
  }

  lemma HonestWithin(r: Run, w: World, known: set<Graph>, graph: Graph)
    requires Compatible(known) && graph in known && WellFormed(r.before) && Honest(r.before, known)
    requires OnlyUnsettled(r, graph) && r.root == graph.root.name
    requires Mid(r, w) || AtEnd(r, w, graph)
    ensures Honest(w, known)
  {
    hide Converged, Agree, WellFormed;
    forall q, id | q in known && id in w.agents && w.agents[id].name == q.root.name && w.agents[id].stamp.Some?
      ensures Backed(w, known, q.root.name)
    {
      if q.root.name == graph.root.name {
        assert AtEnd(r, w, graph);
      } else {
        assert Agree(q, graph);
        RootIsForeign(q, graph);
        assert q.root.name !in r.names;
        assert id in r.before.agents && w.agents[id] == r.before.agents[id];
        assert Backed(r.before, known, q.root.name);
        var v :| v in known && v.root.name == q.root.name && Converged(r.before, v);
        ConvergedElsewhere(r, w, v, graph);
      }
    }
  }

  /** The root of one graph is never an agent of another that agrees with it. */
  lemma RootIsForeign(a: Graph, b: Graph)
    requires Agree(a, b) && a.root.name != b.root.name
    ensures forall j | 0 <= j < |Members(b)| :: Members(b)[j].name != a.root.name
  {
    hide SameDeployment;
    forall j | 0 <= j < |Members(b)| ensures Members(b)[j].name != a.root.name {
      assert Members(a)[0] == a.root && Members(b)[0] == b.root;
    }
  }

  ghost predicate AllHonest(trace: seq<Step>, known: set<Graph>) {
    forall k | 0 <= k < |trace| :: Honest(trace[k].after, known)
  }

  lemma RunKeepsHonesty(r: Run, w: World, trace: seq<Step>, known: set<Graph>, graph: Graph)
    requires Compatible(known) && graph in known && WellFormed(r.before) && Honest(r.before, known)
    requires Safe(r, w, trace, graph) && AllHonest(r.earlier, known)
    ensures Honest(w, known) && AllHonest(trace, known)
  {
    hide Compatible, Mid, AtEnd, OnlyUnsettled, WellFormed, Honest, Begun;
    if w != r.before {
      HonestWithin(r, w, known, graph);
    }
    forall k | 0 <= k < |trace| ensures Honest(trace[k].after, known) {
      if k < |r.earlier| {
        assert trace[k] == r.earlier[k];
      } else {
        HonestWithin(r, trace[k].after, known, graph);
      }
    }
  }

  // ----- Sequences of attempts

  datatype Attempt = Attempt(graph: Graph, force: bool, now: int)

  /** Any sequence of attempts, each of which may be cut off after any call, starting from
      an honest state: every state on the way is honest. */
  method DeployMany(g: Gateway, attempts: seq<Attempt>, ghost known: set<Graph>)
    requires WellFormed(g.world) && Compatible(known) && Honest(g.world, known) && g.trace == []
    requires forall i | 0 <= i < |attempts| :: attempts[i].graph in known && LoadedGraph(attempts[i].graph)
    modifies g
    ensures WellFormed(g.world) && Honest(g.world, known) && AllHonest(g.trace, known)
  {
    hide WellFormed, Compatible, Honest, Safe, LoadedGraph, Converged, WellStampedAll, StampsValid, Ready, OneRun;
    for i := 0 to |attempts|
      invariant WellFormed(g.world) && Honest(g.world, known) && AllHonest(g.trace, known)
    {
      ghost var r;
      var ok;
      ok, r := DeployGraph(g, attempts[i].graph, attempts[i].force, attempts[i].now);
      RunKeepsHonesty(r, g.world, g.trace, known, attempts[i].graph);
    }
  }

  /** Two forced runs from a ready state converge; the first alone succeeds exactly when the
      state was ready and no trigger had to be created, recreated or dropped. */
  method DeployTwice(g: Gateway, graph: Graph, now: int, later: int) returns (first: bool, second: bool)
    requires WellFormed(g.world) && LoadedGraph(graph) && Compiles(graph) && Traceable(g.world, graph)
    requires AllDone(g.outcome, g.calls)
    modifies g
    ensures WellFormed(g.world) && (second ==> Converged(g.world, graph))
    ensures first <==> Ready(old(g.world), graph) && OneRun(old(g.world), graph)
    ensures Ready(old(g.world), graph) ==> second
  {
    hide WellFormed, LoadedGraph, Compiles, Ready, OneRun, Traceable, Converged, Safe, WellStampedAll, StampsValid;
    ghost var r;
    first, r := DeployGraph(g, graph, true, now);
    second, r := DeployGraph(g, graph, true, later);
  }

  /** Running again after a success writes nothing; without force it succeeds exactly when
      every stamp is structurally valid, as it is if the first run found valid stamps. */
  method DeployAgain(g: Gateway, graph: Graph, force: bool, again: bool, now: int, later: int) returns (first: bool, second: bool)
    requires WellFormed(g.world) && LoadedGraph(graph) && Compiles(graph)
    modifies g
    ensures WellFormed(g.world)
    ensures first ==> Converged(g.world, graph)
    ensures first && (!force || StampsValid(old(g.world), graph)) ==> WellStampedAll(g.world, graph)
    ensures first && AllDone(g.outcome, old(g.calls)) ==> (second <==> again || WellStampedAll(g.world, graph))
  {
    hide WellFormed, LoadedGraph, Compiles, Ready, OneRun, Converged, Safe, WellStampedAll, StampsValid;
    ghost var r;
    second := false;
    first, r := DeployGraph(g, graph, force, now);
    if first {
      label Deployed:
      second, r := DeployGraph(g, graph, again, later);
      assert g.world == old@Deployed(g.world) && g.trace == old@Deployed(g.trace);
    }
  }

  // ----- Two graphs that disagree on a shared subagent

  function SomeProject(name: string, version: string): Project {
    Project(name, Definition(version, "model", "prompt", [], map[], Limits(1, 1, 1), ""), true, version, version, [], None)
  }

  const OLD_CHILD := SomeProject("child", "1")
  const NEW_CHILD := SomeProject("child", "2")
  const FIRST := Graph(SomeProject("first", "1"), [OLD_CHILD])
  const SECOND := Graph(SomeProject("second", "1"), [NEW_CHILD])

  function Deployed(p: Project, mode: Mode, links: seq<Link>): Agent {
    Agent(p.name, mode, p.definition, Some(NewStamp(p, [], 0)), Some(p.digest), map[], links)
  }

  /** The first graph is deployed and nothing else is there. */
  const FIRST_DEPLOYED := World(
    map[1 := Deployed(FIRST.root, Primary, [Link(3, Subordinate, "agent", 2)]), 2 := Deployed(OLD_CHILD, Subagent, [])],
    4, Limits(1, 1, 1))

  lemma FirstIsDeployed()
    ensures WellFormed(FIRST_DEPLOYED) && Converged(FIRST_DEPLOYED, FIRST)
  {
    var w := FIRST_DEPLOYED;
    var ids := [1, 2];
    assert AgentOk(w.agents[1], 4) && AgentOk(w.agents[2], 4);
    assert Members(FIRST) == [FIRST.root, OLD_CHILD];
    SettledAsDeployed(FIRST.root, Primary, w.agents[1].links);
    SettledAsDeployed(OLD_CHILD, Subagent, []);
    var link := Link(3, Subordinate, "agent", 2);
    assert link in w.agents[1].links && Leads(w.agents[1].links, 2);
    var children := set i | 1 <= i < |ids| :: ids[i];
    assert ids[1] == 2 && forall id | id in children :: id == 2;
    assert children == {2};
    assert LinksMatch(w.agents[1].links, {2});
    assert ConvergedAt(w, FIRST, ids);
  }

  lemma SettledAsDeployed(p: Project, mode: Mode, links: seq<Link>)
    requires p.triggers == []
    ensures Settled(Deployed(p, mode, links), p, mode)
  {
    assert EntryNames([]) == TriggerNames(p.triggers);
  }

  /** A project without triggers whose agent, if there is one, has recorded none. */
  lemma PlainMemberIsReady(w: World, p: Project)
    requires p.triggers == [] && NewDefinition(p.definition, w.defaults) == p.definition
    requires forall id | id in w.agents && w.agents[id].name == p.name :: w.agents[id].stamp.Some? && ManagedOf(w.agents[id].stamp) == map[]
    ensures ReadyMember(w, p) && OneRunMember(w, p) && TraceableMember(w, p)
  {
    hide NewDefinition, ManagedOf;
  }

  lemma NothingRecorded(p: Project, mode: Mode, links: seq<Link>)
    ensures Deployed(p, mode, links).stamp.Some? && ManagedOf(Deployed(p, mode, links).stamp) == map[]
  {
  }

  lemma SecondMembers()
    ensures Members(SECOND) == [SECOND.root, NEW_CHILD] && Members(FIRST) == [FIRST.root, OLD_CHILD]
    ensures forall id | id in FIRST_DEPLOYED.agents :: FIRST_DEPLOYED.agents[id].name != SECOND.root.name
    ensures FIRST.root.name != SECOND.root.name && FIRST.root.name != NEW_CHILD.name && SECOND.root.name != NEW_CHILD.name
  {
    assert "first"[0] != "second"[0] && "first"[0] != "child"[0] && "second"[0] != "child"[0];
  }

  lemma SecondIsReady()
    ensures LoadedGraph(SECOND) && Compiles(SECOND) && Traceable(FIRST_DEPLOYED, SECOND)
    ensures Ready(FIRST_DEPLOYED, SECOND) && OneRun(FIRST_DEPLOYED, SECOND)
  {
    var w := FIRST_DEPLOYED;
    SecondMembers();
    NothingRecorded(FIRST.root, Primary, w.agents[1].links);
    NothingRecorded(OLD_CHILD, Subagent, []);
    hide ReadyMember, OneRunMember, TraceableMember, ManagedOf, Deployed;
    PlainMemberIsReady(w, SECOND.root);
    PlainMemberIsReady(w, NEW_CHILD);
  }

  lemma TheyDisagree()
    ensures !Agree(FIRST, SECOND)
  {
    SecondMembers();
    assert "1"[0] != "2"[0];
    assert Members(FIRST)[1].name == Members(SECOND)[1].name && !SameDeployment(Members(FIRST)[1], Members(SECOND)[1]);
  }

  /** Deploying the second graph succeeds and leaves the first one's root with a stamp that
      matches its project although the graph does not hold any more. */
  method StaleStamp() returns (g: Gateway)
    ensures Converged(g.world, SECOND) && !Converged(g.world, FIRST)
    ensures exists id :: id in g.world.agents && g.world.agents[id].name == FIRST.root.name && g.world.agents[id].stamp.Some?
                         && StampMatches(g.world.agents[id].stamp.value, FIRST.root)
  {
    hide Converged, Ready, OneRun, Traceable, Agree, WellFormed, LoadedGraph, Compiles, Safe;
    FirstIsDeployed();
    SecondIsReady();
    TheyDisagree();
    g := new Gateway(FIRST_DEPLOYED, k => Done);
    ghost var r;
    var ok;
    ok, r := DeployGraph(g, SECOND, true, 1);
    if Converged(g.world, FIRST) {
      BothConvergedAgree(g.world, FIRST, SECOND);
    }
    FirstRootKept(r, g.world, g.trace);
  }

  lemma SafeIsConfined(r: Run, w: World, trace: seq<Step>, graph: Graph)
    requires Safe(r, w, trace, graph)
    ensures Confined(r.before, w, r.names) && OnlyUnsettled(r, graph)
  {
    hide WellFormed, Converged, StepsSafe, OnlyUnsettled, RootQuiet;
    ConfinedSelf(r.before, r.names);
  }

  lemma FirstRootKept(r: Run, w: World, trace: seq<Step>)
    requires r.before == FIRST_DEPLOYED && Safe(r, w, trace, SECOND)
    ensures 1 in w.agents && w.agents[1].name == FIRST.root.name && w.agents[1].stamp.Some?
    ensures StampMatches(w.agents[1].stamp.value, FIRST.root)
  {
    hide Safe, Confined, OnlyUnsettled, TriggersMatch, StampMatches;
    SafeIsConfined(r, w, trace, SECOND);
    SecondMembers();
    SettledAsDeployed(FIRST.root, Primary, FIRST_DEPLOYED.agents[1].links);
    ForeignRootKeepsStamp(r, w, SECOND, 1);
  }
}
