/** Deploying a graph, and what holds over any sequence of attempts. */
module Attempts {
  import opened Fleet
  import opened Triggers
  import opened Projects
  import opened Deploy
  import opened Rollout
  import opened Deployment

  /** What a run leaves behind, at every write and whether or not it succeeds. */
  ghost predicate Safe(r: Run, w: World, trace: seq<Step>, graph: Graph) {
    && StepsSafe(r, trace, graph) && OnlyUnsettled(r, graph) && r.root == graph.root.name
    && (w == r.before || Mid(r, w) || AtEnd(r, w, graph))
  }

  lemma NoStepsAreSafe(r: Run, graph: Graph)
    requires r.names == {} && r.root == graph.root.name
    ensures Safe(r, r.before, r.earlier, graph)
  {
  }

  lemma RunIsSafe(r: Run, w: World, trace: seq<Step>, plan: seq<Entry>, graph: Graph, force: bool)
    requires PlanFor(r, plan, graph, force) && StepsSafe(r, trace, graph)
    requires w == r.before || Mid(r, w) || AtEnd(r, w, graph)
    ensures Safe(r, w, trace, graph)
  {
    PlanIsOnlyUnsettled(r, plan, graph, force);
    hide StepsSafe, OnlyUnsettled, Mid, AtEnd, WellFormed, AllInspected, Unsettled, LoadedGraph;
  }

  /** In a converged state the preflight of any run finds nothing to write. */
  method DeployGraph(g: Gateway, graph: Graph, force: bool, now: int) returns (ok: bool, ghost r: Run)
    requires WellFormed(g.world) && LoadedGraph(graph)
    modifies g
    ensures WellFormed(g.world) && old(g.calls) <= g.calls
    ensures ok ==> g.failed == old(g.failed)
    ensures r.before == old(g.world) && r.earlier == old(g.trace) && Safe(r, g.world, g.trace, graph)
    ensures ok ==> Converged(g.world, graph)
    ensures ok && (!force || StampsValid(old(g.world), graph)) ==> WellStampedAll(g.world, graph)
    ensures Converged(old(g.world), graph) ==> g.world == old(g.world) && g.trace == old(g.trace)
    ensures ok ==> Compiles(graph) && (force || WellStampedAll(old(g.world), graph))
    ensures !Compiles(graph) || (!force && !WellStampedAll(old(g.world), graph)) ==> g.world == old(g.world) && g.trace == old(g.trace)
    ensures AllDone(g.outcome, old(g.calls)) && Compiles(graph) && Converged(old(g.world), graph) ==>
              (ok <==> force || WellStampedAll(old(g.world), graph))
    ensures !force && AllDone(g.outcome, old(g.calls)) && Compiles(graph) ==>
              (ok <==> WellStampedAll(old(g.world), graph) && (Converged(old(g.world), graph) || Creatable(old(g.world), graph)))
    ensures force && AllDone(g.outcome, old(g.calls)) && Compiles(graph) && Traceable(old(g.world), graph) ==>
              (ok <==> Ready(old(g.world), graph) && OneRun(old(g.world), graph))
    ensures force && AllDone(g.outcome, old(g.calls)) && Compiles(graph) && Traceable(old(g.world), graph) && Ready(old(g.world), graph) ==>
              Ready(g.world, graph) && OneRun(g.world, graph) && Traceable(g.world, graph)
  {
    hide WellFormed, LoadedGraph, StepsSafe, Safe, Converged, WellStampedAll, StampsValid, Ready, OneRun, Traceable, Planned,
      FreshlyStamped, Mid, PlanFor, Creatable, AllFresh, Compiles, Unused;
    r := Run(g.trace, g.world, {}, graph.root.name);
    NoStepsAreSafe(r, graph);
    var ms := Members(graph);
    for i := 0 to |ms|
      invariant forall k | 0 <= k < i :: ms[k].compiles
    {
      if !ms[i].compiles {
        DoesNotCompile(graph, i);
        return false, r;
      }
    }
    assert Compiles(graph) by { AllCompile(graph); }
    if Creatable(g.world, graph) {
      CreatableRoot(g.world, graph);
    }
    var found;
    ok, found := Preflight(g, graph, force);
    if !ok {
      return false, r;
    }
    EnterRun(g.world, found, graph, force);
    if !force {
      EnterUnforced(g.world, found, graph);
    }
    if forall i | 0 <= i < |found| :: !found[i].mutate {
      return true, r;
    }
    var plan := found[0 := found[0].(mutate := true)];
    PlanIsFor(g, found, plan, graph, force);
    r := RunOf(g, plan, graph);
    ok := RunPlan(g, plan, force, now, r, graph);
    RunIsSafe(r, g.world, g.trace, plan, graph, force);
    if ok && StampsValid(r.before, graph) {
      EndConfined(r, g.world, graph);
      StampsAfter(r, g.world, plan, graph, force);
      ConvergedFits(g.world, graph);
    }
  }

  /** What an unforced run can do where something is missing: the root is missing too, and
      everything missing reads back as sent and declares no triggers. */
  ghost predicate Creatable(w: World, graph: Graph) {
    && Unused(w, graph.root.name)
    && forall i | 0 <= i < |Members(graph)| && Unused(w, Members(graph)[i].name) ::
         NewDefinition(Members(graph)[i].definition, w.defaults) == Members(graph)[i].definition && Members(graph)[i].triggers == []
  }

  lemma CreatableRoot(w: World, graph: Graph)
    requires Creatable(w, graph)
    ensures Unused(w, graph.root.name)
  {
  }

  lemma DoesNotCompile(graph: Graph, i: nat)
    requires i < |Members(graph)| && !Members(graph)[i].compiles
    ensures !Compiles(graph)
  {
  }

  lemma AllCompile(graph: Graph)
    requires forall i | 0 <= i < |Members(graph)| :: Members(graph)[i].compiles
    ensures Compiles(graph)
  {
  }

  /** An unforced run that finds something to write finds the root missing, and writes to
      new agents only. */
  lemma EnterUnforced(w: World, found: seq<Entry>, graph: Graph)
    requires WellFormed(w) && LoadedGraph(graph) && Planned(w, found, graph, false) && |found| == |Members(graph)| >= 1
    ensures Traceable(w, graph)
    ensures !Converged(w, graph) ==>
              && Unused(w, graph.root.name) && AllFresh(found[0 := found[0].(mutate := true)])
              && (Ready(w, graph) && OneRun(w, graph) <==> Creatable(w, graph))
  {
    hide WellFormed, LoadedGraph, Converged, WellStampedAll, Ready, OneRun, Traceable, Creatable, Unused, Unsettled;
    UnforcedFits(w, found, graph);
    FittingIsTraceable(w, graph);
    assert Inspected(w, found[0], graph.root, Primary, false);
    forall i | 0 <= i < |found|
      ensures found[i].existing.Some? ==> !Unsettled(w, found[i])
      ensures found[i].existing.None? ==> found[i].prev == map[]
    {
      assert Inspected(w, found[i], Members(graph)[i], ModeOf(i), false);
      InspectedSettled(w, found[i], Members(graph)[i], ModeOf(i));
    }
    if found[0].existing.Some? {
      assert RootLinked(w, found);
      NothingToWrite(w, found, graph, false);
    } else {
      CreatableExactly(w, graph);
    }
  }

  lemma InspectedSettled(w: World, e: Entry, p: Project, mode: Mode)
    requires Inspected(w, e, p, mode, false)
    ensures e.existing.Some? ==> !Unsettled(w, e)
    ensures e.existing.None? ==> e.prev == map[] && Unused(w, p.name)
  {
    hide Settled, WellStamped, Unused;
  }

  lemma FittingIsTraceable(w: World, graph: Graph)
    requires WellFormed(w) && LoadedGraph(graph) && WellStampedAll(w, graph)
    ensures Traceable(w, graph)
    ensures forall i | 0 <= i < |Members(graph)| && !Unused(w, Members(graph)[i].name) :: ReadyMember(w, Members(graph)[i]) && OneRunMember(w, Members(graph)[i])
  {
    hide WellFormed, Settled, WellStamped, ReadyMember, OneRunMember, Loaded;
    forall i | 0 <= i < |Members(graph)|
      ensures TraceableMember(w, Members(graph)[i])
      ensures !Unused(w, Members(graph)[i].name) ==> ReadyMember(w, Members(graph)[i]) && OneRunMember(w, Members(graph)[i])
    {
      assert AllFit(w, Members(graph)[i], ModeOf(i));
      if id :| id in w.agents && w.agents[id].name == Members(graph)[i].name {
        SettledMember(w, Members(graph)[i], ModeOf(i), id);
      }
    }
  }

  lemma CreatableExactly(w: World, graph: Graph)
    requires WellFormed(w) && LoadedGraph(graph) && WellStampedAll(w, graph) && Unused(w, graph.root.name)
    ensures Ready(w, graph) && OneRun(w, graph) <==> Creatable(w, graph)
  {
    hide WellFormed, WellStampedAll, NewDefinition, Attainable, OneRunSuffices, Loaded, PrevOf;
    FittingIsTraceable(w, graph);
    assert LinksReady(w, graph);
    forall i | 0 <= i < |Members(graph)| && Unused(w, Members(graph)[i].name)
      ensures ReadyMember(w, Members(graph)[i]) && OneRunMember(w, Members(graph)[i]) <==>
              NewDefinition(Members(graph)[i].definition, w.defaults) == Members(graph)[i].definition && Members(graph)[i].triggers == []
    {
    }
    hide ReadyMember, OneRunMember, Unused, LinksReady;
  }

  lemma EndConfined(r: Run, w: World, graph: Graph)
    requires AtEnd(r, w, graph)
    ensures WellFormed(w) && Confined(r.before, w, r.names) && Converged(w, graph)
  {
  }

  lemma EnterRun(w: World, found: seq<Entry>, graph: Graph, force: bool)
    requires WellFormed(w) && LoadedGraph(graph) && Planned(w, found, graph, force)
    ensures |found| == |Members(graph)| >= 1
    ensures Converged(w, graph) <==> forall i | 0 <= i < |found| :: !found[i].mutate
    ensures Converged(w, graph) ==> Ready(w, graph) && OneRun(w, graph)
    ensures Converged(w, graph) && StampsValid(w, graph) ==> WellStampedAll(w, graph)
    ensures WellStampedAll(w, graph) ==> StampsValid(w, graph)
    ensures !force ==> WellStampedAll(w, graph)
  {
    hide WellFormed, LoadedGraph, Converged, WellStampedAll, StampsValid, Ready, OneRun;
    assert |found| == |Members(graph)| >= 1;
    if Converged(w, graph) {
      NothingToWriteIfConverged(w, found, graph, force);
      ConvergedIsReady(w, graph);
      if StampsValid(w, graph) {
        ConvergedFits(w, graph);
      }
    }
    if WellStampedAll(w, graph) {
      FitIsValid(w, graph);
    }
    if forall i | 0 <= i < |found| :: !found[i].mutate {
      NothingToWrite(w, found, graph, force);
    }
    if !force {
      UnforcedFits(w, found, graph);
    }
  }
}
