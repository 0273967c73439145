/** Reconciling the subordinate links of a root agent with its subagents. */
module Links {
  import opened Basics
  import opened Fleet

  predicate IsSubordinate(l: Link) {
    l.kind.Subordinate? && l.targetType == "agent"
  }

  /** The subordinate links lead to exactly the desired agents, once each. */
  ghost predicate LinksMatch(links: seq<Link>, desired: set<Id>) {
    && (forall l | l in links && IsSubordinate(l) :: l.target in desired)
    && (forall i, j | 0 <= i < j < |links| && IsSubordinate(links[i]) && IsSubordinate(links[j]) ::
          links[i].target != links[j].target)
    && (forall id | id in desired :: Leads(links, id))
  }

  ghost predicate Leads(links: seq<Link>, id: Id) {
    exists l :: l in links && IsSubordinate(l) && l.target == id
  }

  /** A link of another kind already occupies the place of a link to this agent. */
  ghost predicate Occupied(links: seq<Link>, id: Id) {
    exists l :: l in links && !IsSubordinate(l) && l.targetType == "agent" && l.target == id
  }

  /** The agent is linked or can be: the store would not drop a link to it. */
  ghost predicate Linkable(links: seq<Link>, id: Id) {
    Leads(links, id) || !Occupied(links, id)
  }

  ghost predicate AllLinkable(links: seq<Link>, desired: set<Id>) {
    forall id | id in desired :: Linkable(links, id)
  }

  lemma TakenMeans(links: seq<Link>, id: Id)
    ensures Taken(links, id) <==> Leads(links, id) || Occupied(links, id)
  {
    if l :| l in links && l.targetType == "agent" && l.target == id {
      assert IsSubordinate(l) || !IsSubordinate(l);
    }
  }

  /** Under the store's constraint an agent is linkable exactly when no link of another kind
      leads to it. */
  lemma LinkableUnderConstraint(links: seq<Link>, id: Id)
    requires DistinctTargets(links)
    ensures Linkable(links, id) <==> !Occupied(links, id)
  {
    if Leads(links, id) && Occupied(links, id) {
      var i :| 0 <= i < |links| && IsSubordinate(links[i]) && links[i].target == id;
      var j :| 0 <= j < |links| && !IsSubordinate(links[j]) && links[j].targetType == "agent" && links[j].target == id;
    }
  }

  /** A peer link to a declared subagent: no synchronisation ever matches. */
  lemma PeerLinkBlocks(id: Id, target: Id)
    ensures var links := [Link(id, OtherKind, "agent", target)];
            DistinctTargets(links) && !Linkable(links, target) && !AllLinkable(links, {target})
  {
    var l := Link(id, OtherKind, "agent", target);
    assert l in [l];
    assert Occupied([l], target);
  }

  lemma LeadsAppend(links: seq<Link>, l: Link, id: Id)
    ensures Leads(links + [l], id) <==> Leads(links, id) || (IsSubordinate(l) && l.target == id)
  {
    assert l in links + [l];
    assert forall m | m in links :: m in links + [l];
  }

  method SubordinateLinksMatch(links: seq<Link>, desired: set<Id>) returns (ok: bool)
    ensures ok <==> LinksMatch(links, desired)
  {
    var seen: set<Id> := {};
    for i := 0 to |links|
      invariant seen <= desired
      invariant forall id :: id in seen <==> Leads(links[..i], id)
      invariant forall l | l in links[..i] && IsSubordinate(l) :: l.target in desired
      invariant forall j, k | 0 <= j < k < i && IsSubordinate(links[j]) && IsSubordinate(links[k]) ::
                  links[j].target != links[k].target
    {
      var l := links[i];
      assert links[..i + 1] == links[..i] + [l];
      forall id ensures Leads(links[..i + 1], id) <==> Leads(links[..i], id) || (IsSubordinate(l) && l.target == id) {
        LeadsAppend(links[..i], l, id);
      }
      if IsSubordinate(l) {
        if l.target !in desired {
          return false;
        }
        if l.target in seen {
          var other :| other in links[..i] && IsSubordinate(other) && other.target == l.target;
          return false;
        }
        seen := seen + {l.target};
      }
    }
    assert links[..|links|] == links;
    ok := |seen| == |desired|;
    SubsetOfSameSize(seen, desired);
  }

  lemma SubsetOfSameSize(a: set<Id>, b: set<Id>)
    requires a <= b
    ensures |a| == |b| <==> a == b
  {
    assert b == a + (b - a);
    assert |b| == |a| + |b - a|;
  }

  /** The targets that the first pass has found in place. */
  ghost function Seen(links: seq<Link>, desired: set<Id>): set<Id> {
    set l | l in links && IsSubordinate(l) && l.target in desired :: l.target
  }

  predicate Stale(l: Link, desired: set<Id>, seen: set<Id>) {
    IsSubordinate(l) && !(l.target in desired && l.target !in seen)
  }

  /** The links that the first pass leaves. */
  ghost function Keep(links: seq<Link>, desired: set<Id>): (r: seq<Link>)
    ensures forall l | l in r :: l in links
  {
    if links == [] then []
    else
      var init := links[..|links| - 1];
      var l := links[|links| - 1];
      if Stale(l, desired, Seen(init, desired)) then Keep(init, desired) else Keep(init, desired) + [l]
  }

  /** Links of other kinds or to other targets, in order. */
  ghost function Others(links: seq<Link>): seq<Link> {
    if links == [] then []
    else
      var rest := Others(links[..|links| - 1]);
      if IsSubordinate(links[|links| - 1]) then rest else rest + [links[|links| - 1]]
  }

  lemma {:induction false} OthersSplit(a: seq<Link>, b: seq<Link>)
    ensures Others(a + b) == Others(a) + Others(b)
  {
    if b == [] {
      assert a + b == a;
    } else {
      var init := b[..|b| - 1];
      assert (a + b)[..|a + b| - 1] == a + init;
      OthersSplit(a, init);
    }
  }

  lemma {:induction false} OthersHold(links: seq<Link>, l: Link)
    ensures l in Others(links) <==> l in links && !IsSubordinate(l)
  {
    if links != [] {
      OthersHold(links[..|links| - 1], l);
    }
  }

  lemma SameOthersSameOccupied(a: seq<Link>, b: seq<Link>, id: Id)
    requires Others(a) == Others(b)
    ensures Occupied(a, id) <==> Occupied(b, id)
  {
    if l :| l in a && !IsSubordinate(l) && l.targetType == "agent" && l.target == id {
      OthersHold(a, l);
      OthersHold(b, l);
    }
    if l :| l in b && !IsSubordinate(l) && l.targetType == "agent" && l.target == id {
      OthersHold(a, l);
      OthersHold(b, l);
    }
  }

  lemma {:induction false} KeepKeepsOthers(links: seq<Link>, desired: set<Id>)
    ensures Others(Keep(links, desired)) == Others(links)
  {
    if links != [] {
      var init := links[..|links| - 1];
      KeepKeepsOthers(init, desired);
      OthersSplit(Keep(init, desired), [links[|links| - 1]]);
    }
  }

  ghost predicate OneEach(links: seq<Link>) {
    forall i, j | 0 <= i < j < |links| && IsSubordinate(links[i]) && IsSubordinate(links[j]) ::
      links[i].target != links[j].target
  }

  lemma {:induction false} KeepIsClean(links: seq<Link>, desired: set<Id>)
    ensures Seen(Keep(links, desired), desired) == Seen(links, desired)
    ensures OneEach(Keep(links, desired))
    ensures forall l | l in Keep(links, desired) && IsSubordinate(l) :: l.target in desired
  {
    if links != [] {
      var init := links[..|links| - 1];
      var l := links[|links| - 1];
      assert links == init + [l];
      KeepIsClean(init, desired);
      assert Seen(links, desired) == Seen(init, desired) + (if IsSubordinate(l) && l.target in desired then {l.target} else {});
      var kept := Keep(init, desired);
      if !Stale(l, desired, Seen(init, desired)) {
        assert Seen(kept + [l], desired) ==
               Seen(kept, desired) + (if IsSubordinate(l) && l.target in desired then {l.target} else {});
        forall i | 0 <= i < |kept| && IsSubordinate(kept[i]) && IsSubordinate(l) ensures kept[i].target != l.target {
          assert kept[i] in kept;
          assert kept[i].target in Seen(kept, desired);
        }
      }
    }
  }

  lemma {:induction false} KeepOfMatching(links: seq<Link>, desired: set<Id>)
    requires OneEach(links) && forall l | l in links && IsSubordinate(l) :: l.target in desired
    ensures Keep(links, desired) == links
  {
    if links != [] {
      var init := links[..|links| - 1];
      var l := links[|links| - 1];
      assert links == init + [l];
      KeepOfMatching(init, desired);
      if IsSubordinate(l) {
        assert forall i | 0 <= i < |init| && IsSubordinate(init[i]) :: init[i] == links[i];
      }
    }
  }

  lemma WithoutLast(init: seq<Link>, l: Link, id: Id)
    ensures WithoutLink(init + [l], id) == WithoutLink(init, id) + (if l.id == id then [] else [l])
  {
    assert (init + [l])[..|init|] == init;
  }

  lemma {:induction false} WithoutAbsent(links: seq<Link>, id: Id)
    requires forall l | l in links :: l.id != id
    ensures WithoutLink(links, id) == links
  {
    hide WithoutLink;
    if links == [] {
      WithoutEmpty(id);
    } else {
      var n := |links| - 1;
      assert links == links[..n] + [links[n]];
      WithoutAbsent(links[..n], id);
      WithoutLast(links[..n], links[n], id);
    }
  }

  lemma WithoutEmpty(id: Id)
    ensures WithoutLink([], id) == []
  {
  }

  lemma {:induction false} WithoutLinkAt(links: seq<Link>, j: nat)
    requires DistinctIds(links) && j < |links|
    ensures WithoutLink(links, links[j].id) == links[..j] + links[j + 1..]
  {
    hide WithoutLink;
    var n := |links| - 1;
    var init := links[..n];
    assert links == init + [links[n]];
    WithoutLast(init, links[n], links[j].id);
    if j == n {
      WithoutAbsent(init, links[j].id);
    } else {
      WithoutLinkAt(init, j);
      RemoveInit(links, j);
    }
  }

  // ----- What the synchronisation may change

  /** Nothing but the links of `agent` differs. */
  ghost predicate OnlyLinks(before: World, after: World, agent: Id) {
    && agent in before.agents && agent in after.agents
    && after.agents == before.agents[agent := before.agents[agent].(links := after.agents[agent].links)]
    && before.nextId <= after.nextId && after.defaults == before.defaults
  }

  ghost predicate LinkStepFine(before: World, after: World, agent: Id) {
    OnlyLinks(before, after, agent) && Others(after.agents[agent].links) == Others(before.agents[agent].links)
  }

  ghost predicate LinkStepsFine(trace: seq<Step>, from: nat, before: World, agent: Id) {
    forall k | from <= k < |trace| :: WellFormed(trace[k].after) && LinkStepFine(before, trace[k].after, agent)
  }

  ghost predicate WithinLinks(g: Gateway, from: nat, before: World, agent: Id)
    reads g
  {
    && WellFormed(g.world) && agent in before.agents && agent in g.world.agents
    && LinkStepFine(before, g.world, agent)
    && from <= |g.trace| && LinkStepsFine(g.trace, from, before, agent)
  }

  lemma LinksReplaced(before: World, w: World, agent: Id, links: seq<Link>)
    requires OnlyLinks(before, w, agent)
    ensures OnlyLinks(before, World(w.agents[agent := w.agents[agent].(links := links)], w.nextId + 1, w.defaults), agent)
  {
    assert w.agents[agent := w.agents[agent].(links := links)] ==
           before.agents[agent := before.agents[agent].(links := links)];
  }

  lemma SentLinkFine(before: World, w: World, wr: Write, agent: Id)
    requires OnlyLinks(before, w, agent) && (wr.CreateLink? || wr.DeleteLink?) && wr.agent == agent && agent in w.agents
    ensures OnlyLinks(before, Apply(w, wr), agent) && agent in Apply(w, wr).agents && w.nextId <= Apply(w, wr).nextId
    ensures Apply(w, wr).agents[agent].links == ApplyTo(w.agents[agent], wr, w.nextId).links
  {
    hide OnlyLinks;
    var next := ApplyTo(w.agents[agent], wr, w.nextId);
    assert next == w.agents[agent].(links := next.links);
    LinksReplaced(before, w, agent, next.links);
    assert Apply(w, wr) == World(w.agents[agent := next], w.nextId + 1, w.defaults);
  }

  method SendLink(g: Gateway, wr: Write, ghost from: nat, ghost before: World, agent: Id, ghost links: seq<Link>)
    returns (ok: bool)
    requires WithinLinks(g, from, before, agent) && (wr.CreateLink? || wr.DeleteLink?) && wr.agent == agent
    requires Issued(g.world, wr) && links == ApplyTo(g.world.agents[agent], wr, g.world.nextId).links
    requires Others(links) == Others(before.agents[agent].links)
    modifies g
    ensures WithinLinks(g, from, before, agent) && g.calls == old(g.calls) + 1 && old(g.world.nextId) <= g.world.nextId
    ensures ok ==> g.failed == old(g.failed)
    ensures |old(g.trace)| <= |g.trace| && g.trace[..|old(g.trace)|] == old(g.trace)
    ensures ok ==> g.world.agents[agent].links == links
    ensures g.outcome(old(g.calls)) == Done ==> ok
  {
    hide WellFormed, OnlyLinks, Others, Apply;
    ghost var w := g.world;
    ghost var t := g.trace;
    SentLinkFine(before, w, wr, agent);
    var id;
    ok, id := g.Send(wr);
  }

  /** A run without faults always ends, but a link that the store drops is never there. */
  method SyncSubagentLinks(g: Gateway, parent: Id, desired: set<Id>, force: bool) returns (ok: bool)
    requires WellFormed(g.world) && parent in g.world.agents && forall id | id in desired :: id < g.world.nextId
    modifies g
    ensures WithinLinks(g, |old(g.trace)|, old(g.world), parent) && old(g.calls) <= g.calls
    ensures ok ==> g.failed == old(g.failed)
    ensures |old(g.trace)| <= |g.trace| && g.trace[..|old(g.trace)|] == old(g.trace)
    ensures ok ==> (LinksMatch(g.world.agents[parent].links, desired) <==> AllLinkable(old(g.world.agents[parent].links), desired))
    ensures force && AllDone(g.outcome, old(g.calls)) ==> ok
    ensures old(g.world.agents[parent].links) == [] && AllDone(g.outcome, old(g.calls)) ==> ok
    ensures LinksMatch(old(g.world.agents[parent].links), desired) ==> g.world == old(g.world) && g.trace == old(g.trace)
  {
    hide WellFormed, OnlyLinks, Others, Keep, Seen, LinksMatch, OneEach, Leads, LinkStepsFine, ApplyTo, WithoutLink, AllLinkable;
    ghost var before := g.world;
    ghost var from := |g.trace|;
    LinksStart(g, parent);
    var listing := g.Read();
    if !listing {
      return false;
    }
    var links := g.world.agents[parent].links;
    if LinksMatch(links, desired) {
      MatchingIsAllSeen(links, desired);
    }
    var clean, seen := DropStale(g, parent, links, desired, force, from, before);
    if !clean {
      return false;
    }
    ok := AddMissing(g, parent, links, desired, seen, from, before);
  }

  lemma LinksStart(g: Gateway, parent: Id)
    requires WellFormed(g.world) && parent in g.world.agents
    ensures WithinLinks(g, |g.trace|, g.world, parent)
  {
  }

  lemma LinksDistinct(g: Gateway, from: nat, before: World, parent: Id)
    requires WithinLinks(g, from, before, parent)
    ensures DistinctIds(g.world.agents[parent].links) && Others(g.world.agents[parent].links) == Others(before.agents[parent].links)
  {
    assert AgentOk(g.world.agents[parent], g.world.nextId);
  }

  /** First pass: delete subordinate links that lead elsewhere or lead somewhere twice. */
  method DropStale(g: Gateway, parent: Id, links: seq<Link>, desired: set<Id>, force: bool, ghost from: nat, ghost before: World)
    returns (ok: bool, seen: set<Id>)
    requires WithinLinks(g, from, before, parent) && before == g.world && links == g.world.agents[parent].links
    modifies g
    ensures WithinLinks(g, from, before, parent) && old(g.calls) <= g.calls
    ensures ok ==> g.failed == old(g.failed)
    ensures |old(g.trace)| <= |g.trace| && g.trace[..|old(g.trace)|] == old(g.trace)
    ensures old(g.world.nextId) <= g.world.nextId
    ensures ok ==> g.world.agents[parent].links == Keep(links, desired) && seen == Seen(links, desired)
    ensures (force || links == []) && AllDone(g.outcome, old(g.calls)) ==> ok
    ensures LinksMatch(links, desired) ==> ok && g.world == old(g.world) && g.trace == old(g.trace)
  {
    hide WellFormed, OnlyLinks, Others, LinksMatch, LinkStepsFine, ApplyTo, WithoutLink, Keep, Seen, DistinctIds, Apply, Stale;
    seen := {};
    ok := true;
    DropStart(links, desired);
    for i := 0 to |links|
      invariant WithinLinks(g, from, before, parent) && old(g.calls) <= g.calls && g.failed == old(g.failed)
      invariant |old(g.trace)| <= |g.trace| && g.trace[..|old(g.trace)|] == old(g.trace)
      invariant seen == Seen(links[..i], desired) && old(g.world.nextId) <= g.world.nextId
      invariant g.world.agents[parent].links == Keep(links[..i], desired) + links[i..]
      invariant LinksMatch(links, desired) ==> g.world == old(g.world) && g.trace == old(g.trace)
    {
      var l := links[i];
      DropStep(links, desired, i);
      if Stale(l, desired, seen) {
        if !force {
          return false, seen;
        }
        ghost var next := Keep(links[..i + 1], desired) + links[i + 1..];
        LinksDistinct(g, from, before, parent);
        DropFine(g.world.agents[parent], parent, links, desired, i, g.world.nextId);
        ok := SendLink(g, DeleteLink(parent, l.id), from, before, parent, next);
        if !ok {
          return false, seen;
        }
      } else if IsSubordinate(l) {
        seen := seen + {l.target};
      }
    }
    assert links[..|links|] == links;
  }

  lemma DropStart(links: seq<Link>, desired: set<Id>)
    ensures Seen(links[..0], desired) == {} && Keep(links[..0], desired) + links[0..] == links
  {
  }

  lemma DropStep(links: seq<Link>, desired: set<Id>, i: nat)
    requires i < |links|
    ensures var seen := Seen(links[..i], desired);
            if Stale(links[i], desired, seen) then
              && Seen(links[..i + 1], desired) == seen
              && Keep(links[..i + 1], desired) == Keep(links[..i], desired)
              && !LinksMatch(links, desired)
            else
              && Seen(links[..i + 1], desired) == seen + (if IsSubordinate(links[i]) then {links[i].target} else {})
              && Keep(links[..i + 1], desired) + links[i + 1..] == Keep(links[..i], desired) + links[i..]
  {
    hide Others;
    var l := links[i];
    assert links[..i + 1] == links[..i] + [l];
    assert (links[..i] + [l])[..i] == links[..i];
    assert links[i..] == [l] + links[i + 1..];
    if Stale(l, desired, Seen(links[..i], desired)) && l.target in desired {
      var other :| other in links[..i] && IsSubordinate(other) && other.target == l.target;
      assert exists j :: 0 <= j < i && links[j] == other;
    }
  }

  lemma DropFine(a: Agent, parent: Id, links: seq<Link>, desired: set<Id>, i: nat, newId: Id)
    requires i < |links| && DistinctIds(a.links) && a.links == Keep(links[..i], desired) + links[i..]
    requires Stale(links[i], desired, Seen(links[..i], desired))
    ensures ApplyTo(a, DeleteLink(parent, links[i].id), newId).links == Keep(links[..i + 1], desired) + links[i + 1..]
    ensures Others(Keep(links[..i + 1], desired) + links[i + 1..]) == Others(links)
  {
    hide Others, Seen, WithoutLink, Keep, Stale, LinksMatch;
    DropStep(links, desired, i);
    WithoutMiddle(Keep(links[..i], desired), links[i..]);
    assert links[i..][1..] == links[i + 1..];
    DropKeepsOthers(links, desired, i + 1);
  }

  lemma WithoutMiddle(front: seq<Link>, back: seq<Link>)
    requires back != [] && DistinctIds(front + back)
    ensures WithoutLink(front + back, back[0].id) == front + back[1..]
  {
    hide WithoutLink;
    WithoutLinkAt(front + back, |front|);
    assert (front + back)[..|front|] == front;
    assert (front + back)[|front| + 1..] == back[1..];
  }

  lemma DropKeepsOthers(links: seq<Link>, desired: set<Id>, i: nat)
    requires i <= |links|
    ensures Others(Keep(links[..i], desired) + links[i..]) == Others(links)
  {
    hide Others, Keep;
    KeepKeepsOthers(links[..i], desired);
    OthersSplit(Keep(links[..i], desired), links[i..]);
    OthersSplit(links[..i], links[i..]);
    assert links == links[..i] + links[i..];
  }

  /** Every linkable desired agent outside `todo` is linked, exactly once, and nothing else is. */
  ghost predicate LinkedExcept(links: seq<Link>, desired: set<Id>, todo: set<Id>, original: seq<Link>) {
    && OneEach(links) && Others(links) == Others(original)
    && (forall l | l in links && IsSubordinate(l) :: l.target in desired && l.target !in todo)
    && (forall id | id in desired && id !in todo :: Leads(links, id) <==> Linkable(original, id))
    && (forall id | id in todo :: !Leads(original, id))
  }

  lemma AddStart(links: seq<Link>, desired: set<Id>)
    ensures LinkedExcept(Keep(links, desired), desired, desired - Seen(links, desired), links)
  {
    KeepIsClean(links, desired);
    KeepKeepsOthers(links, desired);
    var kept := Keep(links, desired);
    forall l | l in kept && IsSubordinate(l) ensures l.target in Seen(links, desired) {
      assert l.target in Seen(kept, desired);
    }
    forall id | id in desired && id in Seen(links, desired) ensures Leads(kept, id) && Leads(links, id) {
      assert id in Seen(kept, desired);
    }
    forall id | id in desired && Leads(links, id) ensures id in Seen(links, desired) {
    }
  }

  lemma OneMore(links: seq<Link>, desired: set<Id>, todo: set<Id>, original: seq<Link>, l: Link)
    requires LinkedExcept(links, desired, todo, original) && IsSubordinate(l) && l.target in todo && l.target in desired
    requires Linkable(original, l.target)
    ensures LinkedExcept(links + [l], desired, todo - {l.target}, original)
  {
    hide Occupied, Leads, Others, Linkable;
    forall id ensures Leads(links + [l], id) <==> Leads(links, id) || id == l.target {
      LeadsAppend(links, l, id);
    }
    OthersSplit(links, [l]);
    OnlySubordinate(l);
    forall i | 0 <= i < |links| && IsSubordinate(links[i]) ensures links[i].target != l.target {
      assert links[i] in links;
    }
  }

  lemma OnlySubordinate(l: Link)
    requires IsSubordinate(l)
    ensures forall links :: Others(links) + Others([l]) == Others(links)
  {
    assert [l][..0] == [];
  }

  /** What is not linked before its turn is linked by it if it can be. */
  lemma NotYetLinked(links: seq<Link>, desired: set<Id>, todo: set<Id>, original: seq<Link>, target: Id)
    requires LinkedExcept(links, desired, todo, original) && target in todo && target in desired
    ensures !Leads(links, target) && !Leads(original, target) && (Taken(links, target) <==> !Linkable(original, target))
  {
    TakenMeans(links, target);
    SameOthersSameOccupied(links, original, target);
    hide Others, Occupied;
  }

  lemma AddStep(a: Agent, parent: Id, desired: set<Id>, todo: set<Id>, original: seq<Link>, target: Id, newId: Id)
    requires LinkedExcept(a.links, desired, todo, original) && target in todo && target in desired
    ensures LinkedExcept(ApplyTo(a, CreateLink(parent, target), newId).links, desired, todo - {target}, original)
  {
    NotYetLinked(a.links, desired, todo, original, target);
    if !Taken(a.links, target) {
      OneMore(a.links, desired, todo, original, Link(newId, Subordinate, "agent", target));
    }
    hide Others, Occupied, Taken, Linkable, Leads;
  }

  lemma LinkedOthers(links: seq<Link>, desired: set<Id>, todo: set<Id>, original: seq<Link>)
    requires LinkedExcept(links, desired, todo, original)
    ensures Others(links) == Others(original)
  {
  }

  /** Second pass: link the desired agents not yet linked, in any order. */
  method AddMissing(g: Gateway, parent: Id, ghost links: seq<Link>, desired: set<Id>, seen: set<Id>, ghost from: nat, ghost before: World)
    returns (ok: bool)
    requires WithinLinks(g, from, before, parent)
    requires g.world.agents[parent].links == Keep(links, desired) && seen == Seen(links, desired)
    requires forall id | id in desired :: id < g.world.nextId
    modifies g
    ensures WithinLinks(g, from, before, parent) && old(g.calls) <= g.calls
    ensures ok ==> g.failed == old(g.failed)
    ensures |old(g.trace)| <= |g.trace| && g.trace[..|old(g.trace)|] == old(g.trace)
    ensures ok ==> (LinksMatch(g.world.agents[parent].links, desired) <==> AllLinkable(links, desired))
    ensures AllDone(g.outcome, old(g.calls)) ==> ok
    ensures desired == seen ==> g.world == old(g.world) && g.trace == old(g.trace)
  {
    hide WellFormed, OnlyLinks, Others, LinkStepsFine, ApplyTo, Keep, Seen, LinkedExcept, Apply, LinksMatch, AllLinkable;
    AddStart(links, desired);
    var todo := desired - seen;
    while todo != {}
      invariant WithinLinks(g, from, before, parent) && old(g.calls) <= g.calls && g.failed == old(g.failed)
      invariant |old(g.trace)| <= |g.trace| && g.trace[..|old(g.trace)|] == old(g.trace)
      invariant todo <= desired && LinkedExcept(g.world.agents[parent].links, desired, todo, links)
      invariant old(g.world.nextId) <= g.world.nextId
      invariant desired == seen ==> todo == {} && g.world == old(g.world) && g.trace == old(g.trace)
    {
      var target :| target in todo;
      ghost var next := ApplyTo(g.world.agents[parent], CreateLink(parent, target), g.world.nextId).links;
      LinkedOthers(g.world.agents[parent].links, desired, todo, links);
      AddStep(g.world.agents[parent], parent, desired, todo, links, target, g.world.nextId);
      LinkedOthers(next, desired, todo - {target}, links);
      LinksDistinct(g, from, before, parent);
      ok := SendLink(g, CreateLink(parent, target), from, before, parent, next);
      if !ok {
        return false;
      }
      todo := todo - {target};
    }
    ok := true;
    AddEnd(g.world.agents[parent].links, desired, links);
  }

  lemma AddEnd(links: seq<Link>, desired: set<Id>, original: seq<Link>)
    requires LinkedExcept(links, desired, {}, original)
    ensures LinksMatch(links, desired) <==> AllLinkable(original, desired)
  {
    hide Linkable, Leads;
  }

  lemma MatchingIsAllSeen(links: seq<Link>, desired: set<Id>)
    requires LinksMatch(links, desired)
    ensures Seen(links, desired) == desired
  {
    forall id | id in desired ensures id in Seen(links, desired) {
      assert Leads(links, id);
    }
  }
}
