/** What the gateway stores about agents, what each write of the agents service does to
    it, and the client-side handle through which a deployment issues those writes. */
module Fleet {
  import opened Basics

  /** Identifiers are issued in increasing order; 0 stands for the empty string. */
  type Id = nat

  datatype TriggerSpec = TriggerSpec(
    name: string, kind: string, enabled: bool, schedule: string,
    timezone: string, source: string, event: string, input: string)

  datatype LinkKind = Subordinate | OtherKind
  datatype Link = Link(id: Id, kind: LinkKind, targetType: string, target: Id)

  datatype Mode = Primary | Subagent
  datatype Limits = Limits(maxTurns: int, maxToolCalls: int, maxSteps: int)
  datatype Definition = Definition(
    description: string, model: string, prompt: string, tools: seq<string>,
    config: map<string, string>, limits: Limits, taskMode: string)

  datatype ManagedEntry = ManagedEntry(id: Id, name: string)
  datatype Managed = Absent | NotAList | Entries(entries: seq<ManagedEntry>)

  /** The `agentproject` key of an agent's config. `deployedAt` is None when the
      stored text is not a timestamp. */
  datatype Stamp =
    | NotAnObject
    | Stamp(source: string, hash: string, format: int, deployedAt: Option<int>,
            managed: Managed, paths: Option<map<string, string>>)

  datatype Agent = Agent(
    name: string, mode: Mode, definition: Definition, stamp: Option<Stamp>,
    active: Option<string>, triggers: map<Id, TriggerSpec>, links: seq<Link>)

  datatype World = World(agents: map<Id, Agent>, nextId: Id, defaults: Limits)

  datatype Write =
    | CreateAgent(name: string, mode: Mode, definition: Definition)
    | ClearStamp(agent: Id, config: map<string, string>)
    | PutAgent(agent: Id, mode: Mode, definition: Definition, stamp: Option<Stamp>)
    | ActivateRevision(agent: Id, digest: string)
    | CreateTrigger(agent: Id, spec: TriggerSpec)
    | UpdateTrigger(agent: Id, trigger: Id, spec: TriggerSpec)
    | DeleteTrigger(agent: Id, trigger: Id)
    | CreateLink(agent: Id, target: Id)
    | DeleteLink(agent: Id, link: Id)

  /** The service keeps the stored value of every string field sent empty. */
  function Kept(stored: string, sent: string): string {
    if sent != "" then sent else stored
  }

  function KeepUpdate(stored: TriggerSpec, sent: TriggerSpec): TriggerSpec {
    TriggerSpec(Kept(stored.name, sent.name), stored.kind, sent.enabled,
                Kept(stored.schedule, sent.schedule), Kept(stored.timezone, sent.timezone),
                Kept(stored.source, sent.source), Kept(stored.event, sent.event),
                Kept(stored.input, sent.input))
  }

  /** The other reading of an update request: empty fields clear the stored value. */
  function ClearUpdate(stored: TriggerSpec, sent: TriggerSpec): TriggerSpec {
    sent.(kind := stored.kind)
  }

  /** A new trigger is enabled and its empty timezone becomes UTC. */
  function NewTrigger(sent: TriggerSpec): TriggerSpec {
    sent.(enabled := true, timezone := Kept("UTC", sent.timezone))
  }

  /** So a disabled trigger needs an update after its creation. */
  lemma TriggerCreatedAsDeclaredExactly(sent: TriggerSpec)
    ensures NewTrigger(sent) == sent <==> sent.enabled && sent.timezone != ""
    ensures NewTrigger(sent).enabled && KeepUpdate(NewTrigger(sent), sent) == sent.(timezone := NewTrigger(sent).timezone)
    ensures NewTrigger(sent).timezone == if sent.timezone == "" then "UTC" else sent.timezone
  {
    assert NewTrigger(sent) == sent ==> NewTrigger(sent).timezone == sent.timezone;
  }

  function FillLimit(sent: int, fallback: int): int {
    if sent > 0 then sent else fallback
  }

  /** A create request leaves out limits that are not positive. */
  function NewDefinition(sent: Definition, defaults: Limits): Definition {
    sent.(limits := Limits(FillLimit(sent.limits.maxTurns, defaults.maxTurns),
                           FillLimit(sent.limits.maxToolCalls, defaults.maxToolCalls),
                           FillLimit(sent.limits.maxSteps, defaults.maxSteps)))
  }

  predicate LimitKept(sent: int, fallback: int) {
    sent > 0 || sent == fallback
  }

  /** An agent is created as declared exactly when each limit is positive or the default. */
  lemma CreatedAsDeclaredExactly(sent: Definition, defaults: Limits)
    ensures NewDefinition(sent, defaults) == sent <==>
              LimitKept(sent.limits.maxTurns, defaults.maxTurns) && LimitKept(sent.limits.maxToolCalls, defaults.maxToolCalls)
              && LimitKept(sent.limits.maxSteps, defaults.maxSteps)
  {
    var l := NewDefinition(sent, defaults).limits;
    assert l == sent.limits <==> l.maxTurns == sent.limits.maxTurns && l.maxToolCalls == sent.limits.maxToolCalls && l.maxSteps == sent.limits.maxSteps;
  }

  predicate TriggerNameFree(triggers: map<Id, TriggerSpec>, name: string, except: Id) {
    forall id | id in triggers && id != except :: triggers[id].name != name
  }

  /** What the service checks before it carries out a write. */
  predicate Accepts(w: World, wr: Write) {
    match wr
    case CreateAgent(name, _, _) => forall a | a in w.agents :: w.agents[a].name != name
    case CreateTrigger(a, spec) => a in w.agents && TriggerNameFree(w.agents[a].triggers, spec.name, w.nextId)
    case UpdateTrigger(a, id, spec) =>
      a in w.agents && id in w.agents[a].triggers &&
      (spec.name != "" ==> TriggerNameFree(w.agents[a].triggers, spec.name, id))
    case _ => wr.agent in w.agents
  }

  function WithoutLink(links: seq<Link>, id: Id): (r: seq<Link>)
    ensures forall l | l in r :: l in links && l.id != id
    ensures forall l | l in links && l.id != id :: l in r
  {
    if links == [] then []
    else
      var rest := WithoutLink(links[..|links| - 1], id);
      if links[|links| - 1].id == id then rest else rest + [links[|links| - 1]]
  }

  /** An agent has some link, of whatever kind, to this agent. */
  predicate Taken(links: seq<Link>, target: Id) {
    exists l | l in links :: l.targetType == "agent" && l.target == target
  }

  /** The agent record after a write addressed to it. The store holds one link per target:
      a second one is acknowledged and dropped. */
  function ApplyTo(a: Agent, wr: Write, newId: Id): Agent
    requires !wr.CreateAgent?
    requires wr.UpdateTrigger? ==> wr.trigger in a.triggers
  {
    match wr
    case ClearStamp(_, config) => a.(definition := a.definition.(config := config), stamp := None)
    case PutAgent(_, mode, definition, stamp) => a.(mode := mode, definition := definition, stamp := stamp)
    case ActivateRevision(_, digest) => a.(active := Some(digest))
    case CreateTrigger(_, spec) => a.(triggers := a.triggers[newId := NewTrigger(spec)])
    case UpdateTrigger(_, id, spec) => a.(triggers := a.triggers[id := KeepUpdate(a.triggers[id], spec)])
    case DeleteTrigger(_, id) => a.(triggers := a.triggers - {id})
    case CreateLink(_, target) =>
      if Taken(a.links, target) then a else a.(links := a.links + [Link(newId, Subordinate, "agent", target)])
    case DeleteLink(_, id) => a.(links := WithoutLink(a.links, id))
  }

  function Apply(w: World, wr: Write): World
    requires Accepts(w, wr)
  {
    if wr.CreateAgent? then
      w.(agents := w.agents[w.nextId :=
           Agent(wr.name, wr.mode, NewDefinition(wr.definition, w.defaults), None, None, map[], [])],
         nextId := w.nextId + 1)
    else
      w.(agents := w.agents[wr.agent := ApplyTo(w.agents[wr.agent], wr, w.nextId)],
         nextId := w.nextId + 1)
  }

  // ----- Well-formedness of the stored state

  ghost predicate AgentOk(a: Agent, bound: Id) {
    && (forall id | id in a.triggers :: 0 < id < bound)
    && (forall i, j | i in a.triggers && j in a.triggers && a.triggers[i].name == a.triggers[j].name :: i == j)
    && (forall l | l in a.links :: 0 < l.id < bound && (l.targetType == "agent" ==> l.target < bound))
    && DistinctIds(a.links)
  }

  ghost predicate WellFormed(w: World) {
    && 0 < w.nextId
    && (forall a | a in w.agents :: 0 < a < w.nextId && AgentOk(w.agents[a], w.nextId))
    && (forall a, b | a in w.agents && b in w.agents && w.agents[a].name == w.agents[b].name :: a == b)
  }

  ghost predicate DistinctIds(links: seq<Link>) {
    forall i, j | 0 <= i < j < |links| :: links[i].id != links[j].id
  }

  lemma {:induction false} WithoutLinkDistinct(links: seq<Link>, id: Id)
    requires DistinctIds(links)
    ensures DistinctIds(WithoutLink(links, id))
  {
    if links != [] {
      var init := links[..|links| - 1];
      WithoutLinkDistinct(init, id);
      var rest := WithoutLink(init, id);
      var last := links[|links| - 1];
      forall i | 0 <= i < |rest| ensures rest[i].id != last.id {
        assert rest[i] in init;
      }
      assert DistinctIds(rest + [last]);
    }
  }

  /** The store's own constraint on links. */
  ghost predicate DistinctTargets(links: seq<Link>) {
    forall i, j | 0 <= i < j < |links| && links[i].targetType == links[j].targetType :: links[i].target != links[j].target
  }

  lemma {:induction false} WithoutLinkDistinctTargets(links: seq<Link>, id: Id)
    requires DistinctTargets(links)
    ensures DistinctTargets(WithoutLink(links, id))
  {
    if links != [] {
      var init := links[..|links| - 1];
      WithoutLinkDistinctTargets(init, id);
      var rest := WithoutLink(init, id);
      var last := links[|links| - 1];
      forall i | 0 <= i < |rest| && rest[i].targetType == last.targetType ensures rest[i].target != last.target {
        assert rest[i] in init;
      }
      assert DistinctTargets(rest + [last]);
    }
  }

  /** Every write keeps it. */
  lemma ApplyKeepsDistinctTargets(a: Agent, wr: Write, newId: Id)
    requires !wr.CreateAgent? && (wr.UpdateTrigger? ==> wr.trigger in a.triggers) && DistinctTargets(a.links)
    ensures DistinctTargets(ApplyTo(a, wr, newId).links)
  {
    if wr.DeleteLink? {
      WithoutLinkDistinctTargets(a.links, wr.link);
    }
    if wr.CreateLink? && !Taken(a.links, wr.target) {
      forall i | 0 <= i < |a.links| && a.links[i].targetType == "agent" ensures a.links[i].target != wr.target {
        assert a.links[i] in a.links;
      }
    }
  }

  lemma TriggersStayOk(a: Agent, t: map<Id, TriggerSpec>, bound: Id)
    requires AgentOk(a, bound) && 0 < bound
    requires forall id | id in t :: 0 < id <= bound
    requires forall i, j | i in t && j in t && t[i].name == t[j].name :: i == j
    ensures AgentOk(a.(triggers := t), bound + 1)
  {
  }

  lemma LinksStayOk(a: Agent, links: seq<Link>, bound: Id)
    requires AgentOk(a, bound) && 0 < bound
    requires forall l | l in links :: 0 < l.id <= bound && (l.targetType == "agent" ==> l.target <= bound)
    requires DistinctIds(links)
    ensures AgentOk(a.(links := links), bound + 1)
  {
  }

  lemma ApplyToKeepsAgentOk(a: Agent, wr: Write, bound: Id)
    requires !wr.CreateAgent? && AgentOk(a, bound) && 0 < bound
    requires wr.CreateTrigger? ==> TriggerNameFree(a.triggers, wr.spec.name, bound)
    requires wr.UpdateTrigger? ==>
      wr.trigger in a.triggers && (wr.spec.name != "" ==> TriggerNameFree(a.triggers, wr.spec.name, wr.trigger))
    requires wr.CreateLink? ==> wr.target < bound
    ensures AgentOk(ApplyTo(a, wr, bound), bound + 1)
  {
    match wr
    case CreateTrigger(_, _) => TriggersStayOk(a, ApplyTo(a, wr, bound).triggers, bound);
    case UpdateTrigger(_, id, spec) => TriggersStayOk(a, ApplyTo(a, wr, bound).triggers, bound);
    case DeleteTrigger(_, _) => TriggersStayOk(a, ApplyTo(a, wr, bound).triggers, bound);
    case CreateLink(_, _) => LinksStayOk(a, ApplyTo(a, wr, bound).links, bound);
    case DeleteLink(_, id) =>
      WithoutLinkDistinct(a.links, id);
      LinksStayOk(a, WithoutLink(a.links, id), bound);
    case _ =>
  }

  /** What the client promises: a link leads to an identifier that was issued. */
  predicate Issued(w: World, wr: Write) {
    wr.CreateLink? ==> wr.target < w.nextId
  }

  lemma OkStaysOk(a: Agent, bound: Id)
    requires AgentOk(a, bound)
    ensures AgentOk(a, bound + 1)
  {
  }

  lemma CreateKeepsWellFormed(w: World, wr: Write)
    requires WellFormed(w) && Accepts(w, wr) && wr.CreateAgent?
    ensures WellFormed(Apply(w, wr))
  {
    var w' := Apply(w, wr);
    forall a | a in w'.agents ensures 0 < a < w'.nextId && AgentOk(w'.agents[a], w'.nextId) {
      if a in w.agents {
        OkStaysOk(w.agents[a], w.nextId);
      }
    }
  }

  /** Every accepted write keeps identifiers fresh and names unique. */
  lemma ApplyKeepsWellFormed(w: World, wr: Write)
    requires WellFormed(w) && Accepts(w, wr) && Issued(w, wr)
    ensures WellFormed(Apply(w, wr))
  {
    hide WellFormed, ApplyTo;
    if wr.CreateAgent? {
      CreateKeepsWellFormed(w, wr);
    } else {
      ChangeKeepsWellFormed(w, wr);
    }
  }

  lemma ChangeKeepsWellFormed(w: World, wr: Write)
    requires WellFormed(w) && Accepts(w, wr) && Issued(w, wr) && !wr.CreateAgent?
    ensures WellFormed(Apply(w, wr))
  {
    hide AgentOk, ApplyTo, WellFormed, TriggerNameFree;
    var a := w.agents[wr.agent];
    AgentIsOk(w, wr.agent);
    ApplyToKeepsAgentOk(a, wr, w.nextId);
    ApplyToKeepsName(a, wr, w.nextId);
    OneReplaced(w, wr.agent, ApplyTo(a, wr, w.nextId));
  }

  lemma AgentIsOk(w: World, id: Id)
    requires WellFormed(w) && id in w.agents
    ensures 0 < w.nextId && AgentOk(w.agents[id], w.nextId)
  {
  }

  lemma OneReplaced(w: World, id: Id, a: Agent)
    requires WellFormed(w) && id in w.agents && a.name == w.agents[id].name && AgentOk(a, w.nextId + 1)
    ensures WellFormed(w.(agents := w.agents[id := a], nextId := w.nextId + 1))
  {
    hide AgentOk;
    var w' := w.(agents := w.agents[id := a], nextId := w.nextId + 1);
    forall b | b in w'.agents ensures 0 < b < w'.nextId && AgentOk(w'.agents[b], w'.nextId) {
      OkStaysOk(w.agents[b], w.nextId);
    }
  }

  lemma ApplyToKeepsName(a: Agent, wr: Write, newId: Id)
    requires !wr.CreateAgent? && (wr.UpdateTrigger? ==> wr.trigger in a.triggers)
    ensures ApplyTo(a, wr, newId).name == a.name
  {
  }

  // ----- The client's handle

  /** What becomes of one call: carried out and answered, not carried out, or carried out
      with the answer lost. A crash right after a write is a Lost reply. */
  datatype Outcome = Done | Refused | Lost

  datatype Step = Step(write: Write, after: World)

  ghost predicate AllDone(outcome: nat -> Outcome, from: nat) {
    forall k: nat | from <= k :: outcome(k) == Done
  }

  class Gateway {
    var world: World
    var calls: nat
    const outcome: nat -> Outcome
    /** Every write that took effect, with the state it led to. */
    ghost var trace: seq<Step>
    /** How many calls were not answered with success. */
    ghost var failed: nat

    constructor (world: World, outcome: nat -> Outcome)
      ensures this.world == world && calls == 0 && this.outcome == outcome && trace == [] && failed == 0
    {
      this.world := world;
      this.calls := 0;
      this.outcome := outcome;
      this.trace := [];
      this.failed := 0;
    }

    /** One write call. `id` is the identifier in the reply to a create call. */
    method Send(wr: Write) returns (ok: bool, id: Id)
      requires WellFormed(world) && Issued(world, wr)
      modifies this
      ensures WellFormed(world)
      ensures calls == old(calls) + 1
      ensures ok <==> Accepts(old(world), wr) && outcome(old(calls)) == Done
      ensures id == old(world.nextId) && failed == old(failed) + (if ok then 0 else 1)
      ensures if Accepts(old(world), wr) && outcome(old(calls)) != Refused
              then world == Apply(old(world), wr) && trace == old(trace) + [Step(wr, world)]
              else world == old(world) && trace == old(trace)
    {
      var fate := outcome(calls);
      calls := calls + 1;
      id := world.nextId;
      ok := false;
      if Accepts(world, wr) && fate != Refused {
        ApplyKeepsWellFormed(world, wr);
        world := Apply(world, wr);
        trace := trace + [Step(wr, world)];
        ok := fate == Done;
      }
      failed := failed + if ok then 0 else 1;
    }

    /** One read call; after a successful one the caller may look at `world`. */
    method Read() returns (ok: bool)
      modifies this`calls, this`failed
      ensures calls == old(calls) + 1
      ensures ok <==> outcome(old(calls)) == Done
      ensures failed == old(failed) + (if ok then 0 else 1)
    {
      ok := outcome(calls) == Done;
      calls := calls + 1;
      failed := failed + if ok then 0 else 1;
    }
  }
}
