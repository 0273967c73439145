/** One tick of usage enforcement: tenants are grouped by billing organization, access is
    asked for once per group, and every tenant of a group is resumed or stopped. */
module Enforcement {
  import opened Basics
  import opened Text

  type Tenant = string

  datatype Group = Group(key: string, aliases: seq<Tenant>)

  /** `organizations` holds what resolving the tenants one by one answered. */
  function KeyOf(tenant: Tenant, organization: Option<string>): string {
    if organization.Some? && Trim(organization.value) != "" then organization.value else tenant
  }

  function Keys(tenants: seq<Tenant>, organizations: seq<Option<string>>): (r: seq<string>)
    requires |organizations| == |tenants|
    ensures |r| == |tenants|
  {
    seq(|tenants|, i requires 0 <= i < |tenants| => KeyOf(tenants[i], organizations[i]))
  }

  /** The tenants of one key, in order. */
  function Select(tenants: seq<Tenant>, keys: seq<string>, key: string): seq<Tenant>
    requires |keys| == |tenants|
  {
    if tenants == [] then []
    else
      var n := |tenants| - 1;
      Select(tenants[..n], keys[..n], key) + if keys[n] == key then [tenants[n]] else []
  }

  function FirstIndex(keys: seq<string>, key: string): (r: nat)
    ensures r <= |keys| && (r < |keys| ==> keys[r] == key) && forall i | 0 <= i < r :: keys[i] != key
  {
    if keys == [] || keys[0] == key then 0 else 1 + FirstIndex(keys[1..], key)
  }

  ghost predicate HasGroup(groups: seq<Group>, key: string) {
    exists g :: 0 <= g < |groups| && groups[g].key == key
  }

  /** One group per key, in order of first occurrence, each with all its tenants in order. */
  ghost predicate Partition(tenants: seq<Tenant>, keys: seq<string>, groups: seq<Group>)
    requires |keys| == |tenants|
  {
    && (forall g | 0 <= g < |groups| :: groups[g].key in keys && groups[g].aliases == Select(tenants, keys, groups[g].key))
    && (forall i | 0 <= i < |keys| :: HasGroup(groups, keys[i]))
    && (forall a, b | 0 <= a < b < |groups| :: FirstIndex(keys, groups[a].key) < FirstIndex(keys, groups[b].key))
  }

  lemma {:induction false} FirstIndexOfPrefix(keys: seq<string>, more: string, key: string)
    ensures FirstIndex(keys + [more], key) == if key in keys then FirstIndex(keys, key) else if more == key then |keys| else |keys| + 1
  {
    var k := FirstIndex(keys + [more], key);
    var l := FirstIndex(keys, key);
    var longer := keys + [more];
    assert forall i | 0 <= i < |keys| :: longer[i] == keys[i];
    assert longer[|keys|] == more;
    if key in keys {
      assert l < |keys| && longer[l] == key;
    }
  }

  lemma SelectStep(tenants: seq<Tenant>, keys: seq<string>, i: nat, key: string)
    requires |keys| == |tenants| && i < |tenants|
    ensures Select(tenants[..i + 1], keys[..i + 1], key) ==
            Select(tenants[..i], keys[..i], key) + if keys[i] == key then [tenants[i]] else []
  {
    assert tenants[..i + 1][..i] == tenants[..i] && keys[..i + 1][..i] == keys[..i];
  }

  lemma {:induction false} SelectOfAbsent(tenants: seq<Tenant>, keys: seq<string>, key: string)
    requires |keys| == |tenants| && key !in keys
    ensures Select(tenants, keys, key) == []
  {
    if tenants != [] {
      SelectOfAbsent(tenants[..|tenants| - 1], keys[..|tenants| - 1], key);
    }
  }

  /** A tenant of a known key joins its group. */
  lemma JoinGroup(tenants: seq<Tenant>, keys: seq<string>, groups: seq<Group>, i: nat, at: nat)
    requires |keys| == |tenants| && i < |tenants| && Partition(tenants[..i], keys[..i], groups)
    requires at < |groups| && groups[at].key == keys[i]
    ensures Partition(tenants[..i + 1], keys[..i + 1], groups[at := Group(keys[i], groups[at].aliases + [tenants[i]])])
  {
    hide Select, FirstIndex;
    var next := groups[at := Group(keys[i], groups[at].aliases + [tenants[i]])];
    assert keys[..i + 1] == keys[..i] + [keys[i]];
    forall g | 0 <= g < |next|
      ensures next[g].key in keys[..i + 1] && next[g].aliases == Select(tenants[..i + 1], keys[..i + 1], next[g].key)
      ensures FirstIndex(keys[..i + 1], next[g].key) == FirstIndex(keys[..i], groups[g].key) && next[g].key == groups[g].key
      ensures g != at ==> groups[g].key != keys[i]
    {
      SelectStep(tenants, keys, i, next[g].key);
      FirstIndexOfPrefix(keys[..i], keys[i], next[g].key);
      if g < at {
        assert FirstIndex(keys[..i], groups[g].key) < FirstIndex(keys[..i], groups[at].key);
      } else if at < g {
        assert FirstIndex(keys[..i], groups[at].key) < FirstIndex(keys[..i], groups[g].key);
      }
    }
    var now := keys[..i + 1];
    forall k | 0 <= k < |now| ensures HasGroup(next, now[k]) {
      if k < i {
        assert keys[..i][k] == now[k];
        assert HasGroup(groups, keys[..i][k]);
        var g :| 0 <= g < |groups| && groups[g].key == keys[..i][k];
        assert next[g].key == now[k];
      } else {
        assert next[at].key == now[k];
      }
    }
  }

  /** A tenant of a new key opens a group. */
  lemma OpenGroup(tenants: seq<Tenant>, keys: seq<string>, groups: seq<Group>, i: nat)
    requires |keys| == |tenants| && i < |tenants| && Partition(tenants[..i], keys[..i], groups) && keys[i] !in keys[..i]
    ensures Partition(tenants[..i + 1], keys[..i + 1], groups + [Group(keys[i], [tenants[i]])])
  {
    hide Select, FirstIndex;
    var next := groups + [Group(keys[i], [tenants[i]])];
    assert keys[..i + 1] == keys[..i] + [keys[i]];
    SelectOfAbsent(tenants[..i], keys[..i], keys[i]);
    forall g | 0 <= g < |next|
      ensures next[g].key in keys[..i + 1] && next[g].aliases == Select(tenants[..i + 1], keys[..i + 1], next[g].key)
      ensures FirstIndex(keys[..i + 1], next[g].key) == if g < |groups| then FirstIndex(keys[..i], groups[g].key) else i
      ensures g < |groups| ==> FirstIndex(keys[..i], groups[g].key) < i
    {
      SelectStep(tenants, keys, i, next[g].key);
      FirstIndexOfPrefix(keys[..i], keys[i], next[g].key);
    }
    var now := keys[..i + 1];
    forall k | 0 <= k < |now| ensures HasGroup(next, now[k]) {
      if k < i {
        assert keys[..i][k] == now[k];
        assert HasGroup(groups, keys[..i][k]);
        var g :| 0 <= g < |groups| && groups[g].key == keys[..i][k];
        assert next[g].key == now[k];
      } else {
        assert next[|groups|].key == now[k];
      }
    }
  }

  method GroupTenantsByOrganization(tenants: seq<Tenant>, organizations: seq<Option<string>>) returns (groups: seq<Group>)
    requires |organizations| == |tenants|
    ensures Partition(tenants, Keys(tenants, organizations), groups)
  {
    hide Partition;
    ghost var keys := Keys(tenants, organizations);
    groups := [];
    var index: map<string, nat> := map[];
    assert Partition(tenants[..0], keys[..0], groups) by { NoGroups(tenants[..0], keys[..0]); }
    for i := 0 to |tenants|
      invariant Partition(tenants[..i], keys[..i], groups)
      invariant forall k :: k in index <==> k in keys[..i]
      invariant forall k | k in index :: index[k] < |groups| && groups[index[k]].key == k
    {
      var key := KeyOf(tenants[i], organizations[i]);
      assert key == keys[i] && keys[..i + 1] == keys[..i] + [key];
      if key in index {
        JoinGroup(tenants, keys, groups, i, index[key]);
        groups := groups[index[key] := Group(key, groups[index[key]].aliases + [tenants[i]])];
      } else {
        OpenGroup(tenants, keys, groups, i);
        index := index[key := |groups|];
        groups := groups + [Group(key, [tenants[i]])];
      }
    }
    assert tenants[..|tenants|] == tenants && keys[..|tenants|] == keys;
  }

  lemma NoGroups(tenants: seq<Tenant>, keys: seq<string>)
    requires tenants == [] && keys == []
    ensures Partition(tenants, keys, [])
  {
  }

  // ----- Each tenant exactly once

  ghost predicate DistinctTenants(tenants: seq<Tenant>) {
    forall i, j | 0 <= i < j < |tenants| :: tenants[i] != tenants[j]
  }

  lemma {:induction false} SelectHolds(tenants: seq<Tenant>, keys: seq<string>, key: string, t: Tenant)
    requires |keys| == |tenants|
    ensures t in Select(tenants, keys, key) <==> exists i :: 0 <= i < |tenants| && tenants[i] == t && keys[i] == key
  {
    if tenants != [] {
      var n := |tenants| - 1;
      SelectHolds(tenants[..n], keys[..n], key, t);
      if i :| 0 <= i < |tenants| && tenants[i] == t && keys[i] == key {
        assert i < n ==> tenants[..n][i] == t && keys[..n][i] == key;
      }
    }
  }

  /** The tenants of a key are selected in their order. */
  lemma {:induction false} SelectInOrder(tenants: seq<Tenant>, keys: seq<string>, key: string, p: nat, q: nat)
    requires |keys| == |tenants| && p < q < |Select(tenants, keys, key)|
    ensures var selected := Select(tenants, keys, key);
            exists i, j :: 0 <= i < j < |tenants| && tenants[i] == selected[p] && tenants[j] == selected[q] && keys[i] == keys[j] == key
  {
    var n := |tenants| - 1;
    var selected, before := Select(tenants, keys, key), Select(tenants[..n], keys[..n], key);
    if q < |before| {
      SelectInOrder(tenants[..n], keys[..n], key, p, q);
      var i, j :| 0 <= i < j < n && tenants[..n][i] == before[p] && tenants[..n][j] == before[q] && keys[..n][i] == keys[..n][j] == key;
      assert tenants[i] == selected[p] && tenants[j] == selected[q] && keys[i] == keys[j] == key;
    } else {
      assert before[p] in before;
      SelectHolds(tenants[..n], keys[..n], key, before[p]);
      var i :| 0 <= i < n && tenants[..n][i] == before[p] && keys[..n][i] == key;
      assert tenants[i] == selected[p] && tenants[n] == selected[q] && keys[i] == keys[n] == key;
    }
  }

  lemma GroupOf(tenants: seq<Tenant>, keys: seq<string>, groups: seq<Group>, i: nat) returns (g: nat)
    requires |keys| == |tenants| && Partition(tenants, keys, groups) && i < |tenants|
    ensures g < |groups| && groups[g].key == keys[i] && groups[g].aliases == Select(tenants, keys, keys[i])
  {
    hide Select, FirstIndex;
    assert HasGroup(groups, keys[i]);
    g :| 0 <= g < |groups| && groups[g].key == keys[i];
  }

  /** Groups of different keys share no tenant, and every tenant is in one. */
  lemma TenantInOneGroup(tenants: seq<Tenant>, keys: seq<string>, groups: seq<Group>, i: nat)
    requires |keys| == |tenants| && Partition(tenants, keys, groups) && DistinctTenants(tenants) && i < |tenants|
    ensures exists g :: 0 <= g < |groups| && tenants[i] in groups[g].aliases
    ensures forall a, b | 0 <= a < |groups| && 0 <= b < |groups| :: tenants[i] in groups[a].aliases && tenants[i] in groups[b].aliases ==> a == b
  {
    var g := GroupOf(tenants, keys, groups, i);
    SelectHolds(tenants, keys, keys[i], tenants[i]);
    forall a | 0 <= a < |groups| && tenants[i] in groups[a].aliases ensures a == g {
      SelectHolds(tenants, keys, groups[a].key, tenants[i]);
      assert groups[a].key == keys[i];
    }
  }

  /** The tenant was resolved to an organization with a name. */
  predicate Belongs(organization: Option<string>) {
    organization.Some? && !AllSpace(organization.value)
  }

  /** Two tenants are billed alike: through one organization, or one through an organization
      of the other's name; a tenant without an organization shares with no other such. */
  predicate BilledAlike(a: Tenant, x: Option<string>, b: Tenant, y: Option<string>) {
    || (Belongs(x) && Belongs(y) && x == y)
    || (Belongs(x) && !Belongs(y) && x == Some(b))
    || (!Belongs(x) && Belongs(y) && Some(a) == y)
    || (!Belongs(x) && !Belongs(y) && a == b)
  }

  lemma BelongsByTrim(organization: Option<string>)
    ensures Belongs(organization) <==> organization.Some? && Trim(organization.value) != ""
  {
    if organization.Some? {
      TrimOfBlank(organization.value);
    }
  }

  lemma AlikeByKey(a: Tenant, x: Option<string>, b: Tenant, y: Option<string>)
    ensures BilledAlike(a, x, b, y) <==> KeyOf(a, x) == KeyOf(b, y)
  {
    hide Trim, Belongs;
    BelongsByTrim(x);
    BelongsByTrim(y);
  }

  ghost predicate Share(groups: seq<Group>, a: Tenant, b: Tenant) {
    exists g :: 0 <= g < |groups| && a in groups[g].aliases && b in groups[g].aliases
  }

  lemma InGroupByKey(tenants: seq<Tenant>, keys: seq<string>, groups: seq<Group>, g: nat, i: nat)
    requires |keys| == |tenants| && Partition(tenants, keys, groups) && DistinctTenants(tenants) && i < |tenants| && g < |groups|
    ensures tenants[i] in groups[g].aliases <==> groups[g].key == keys[i]
  {
    hide Select, FirstIndex, HasGroup;
    SelectHolds(tenants, keys, groups[g].key, tenants[i]);
  }

  /** Tenants share a group exactly when they are billed alike. */
  lemma ShareGroupExactly(tenants: seq<Tenant>, organizations: seq<Option<string>>, groups: seq<Group>, i: nat, j: nat)
    requires |organizations| == |tenants| && Partition(tenants, Keys(tenants, organizations), groups) && DistinctTenants(tenants)
    requires i < |tenants| && j < |tenants|
    ensures Share(groups, tenants[i], tenants[j]) <==> BilledAlike(tenants[i], organizations[i], tenants[j], organizations[j])
  {
    hide Partition, DistinctTenants, BilledAlike, KeyOf, Select;
    var keys := Keys(tenants, organizations);
    AlikeByKey(tenants[i], organizations[i], tenants[j], organizations[j]);
    var g := GroupOf(tenants, keys, groups, i);
    InGroupByKey(tenants, keys, groups, g, i);
    InGroupByKey(tenants, keys, groups, g, j);
    if h :| 0 <= h < |groups| && tenants[i] in groups[h].aliases && tenants[j] in groups[h].aliases {
      InGroupByKey(tenants, keys, groups, h, i);
      InGroupByKey(tenants, keys, groups, h, j);
    }
  }

  // ----- The tick

  datatype Action = Resume(tenant: Tenant) | Stop(tenant: Tenant) | Suspend(tenant: Tenant)

  /** What the services would answer: access per reported tenant, if it can be had, and
      which resume, stop and suspend calls succeed. */
  datatype Services = Services(access: Tenant -> Option<bool>, accepts: Action -> bool)

  ghost predicate Reported(groups: seq<Group>, s: Services, allowed: bool, t: Tenant) {
    exists g :: 0 <= g < |groups| && t in groups[g].aliases && groups[g].aliases != [] && s.access(groups[g].aliases[0]) == Some(allowed)
  }

  ghost predicate Ticked(groups: seq<Group>, s: Services, actions: seq<Action>) {
    && (forall t :: Resume(t) in actions <==> Reported(groups, s, true, t))
    && (forall t :: Stop(t) in actions <==> Reported(groups, s, false, t))
    && (forall t :: Suspend(t) in actions <==> Reported(groups, s, false, t) && s.accepts(Stop(t)))
  }

  method Enforce(aliases: seq<Tenant>, allowed: bool, s: Services) returns (actions: seq<Action>, failures: nat)
    ensures forall t :: Resume(t) in actions <==> allowed && t in aliases
    ensures forall t :: Stop(t) in actions <==> !allowed && t in aliases
    ensures forall t :: Suspend(t) in actions <==> !allowed && t in aliases && s.accepts(Stop(t))
    ensures failures == 0 <==> forall a | a in actions :: s.accepts(a)
  {
    actions, failures := [], 0;
    for i := 0 to |aliases|
      invariant forall t :: Resume(t) in actions <==> allowed && t in aliases[..i]
      invariant forall t :: Stop(t) in actions <==> !allowed && t in aliases[..i]
      invariant forall t :: Suspend(t) in actions <==> !allowed && t in aliases[..i] && s.accepts(Stop(t))
      invariant failures == 0 <==> forall a | a in actions :: s.accepts(a)
    {
      var t := aliases[i];
      assert aliases[..i + 1] == aliases[..i] + [t];
      if allowed {
        actions := actions + [Resume(t)];
        if !s.accepts(Resume(t)) { failures := failures + 1; }
      } else {
        actions := actions + [Stop(t)];
        if !s.accepts(Stop(t)) {
          failures := failures + 1;
        } else {
          actions := actions + [Suspend(t)];
          if !s.accepts(Suspend(t)) { failures := failures + 1; }
        }
      }
    }
    assert aliases[..|aliases|] == aliases;
  }

  lemma TickStep(groups: seq<Group>, s: Services, i: nat, actions: seq<Action>, more: seq<Action>)
    requires i < |groups| && Ticked(groups[..i], s, actions) && groups[i].aliases != []
    requires var answer := s.access(groups[i].aliases[0]);
             if answer.None? then more == []
             else
               && (forall t :: Resume(t) in more <==> answer.value && t in groups[i].aliases)
               && (forall t :: Stop(t) in more <==> !answer.value && t in groups[i].aliases)
               && (forall t :: Suspend(t) in more <==> !answer.value && t in groups[i].aliases && s.accepts(Stop(t)))
    ensures Ticked(groups[..i + 1], s, actions + more)
  {
    forall allowed, t
      ensures Reported(groups[..i + 1], s, allowed, t) <==>
              Reported(groups[..i], s, allowed, t) || (t in groups[i].aliases && s.access(groups[i].aliases[0]) == Some(allowed))
    {
      if g :| 0 <= g < i && t in groups[..i][g].aliases && groups[..i][g].aliases != [] && s.access(groups[..i][g].aliases[0]) == Some(allowed) {
        assert groups[..i + 1][g] == groups[..i][g];
      }
      if t in groups[i].aliases && s.access(groups[i].aliases[0]) == Some(allowed) {
        assert groups[..i + 1][i] == groups[i];
      }
    }
  }

  lemma {:induction false} SelectedNonempty(tenants: seq<Tenant>, keys: seq<string>, groups: seq<Group>)
    requires |keys| == |tenants| && Partition(tenants, keys, groups)
    ensures forall g | 0 <= g < |groups| :: groups[g].aliases != []
  {
    forall g | 0 <= g < |groups| ensures groups[g].aliases != [] {
      var i :| 0 <= i < |keys| && keys[i] == groups[g].key;
      SelectHolds(tenants, keys, groups[g].key, tenants[i]);
    }
  }

  /** One tick over all groups; a group whose report fails is left alone and the others
      are still enforced. Without a stopper groups are only reported. */
  method ReportAll(tenants: seq<Tenant>, organizations: seq<Option<string>>, s: Services, stopper: bool)
    returns (actions: seq<Action>, groups: seq<Group>, ok: bool)
    requires |organizations| == |tenants|
    ensures Partition(tenants, Keys(tenants, organizations), groups)
    ensures if stopper then Ticked(groups, s, actions) else actions == []
    ensures ok <==> (forall g | 0 <= g < |groups| :: groups[g].aliases != [] && s.access(groups[g].aliases[0]).Some?)
                    && forall a | a in actions :: s.accepts(a)
  {
    hide Partition, Ticked;
    groups := GroupTenantsByOrganization(tenants, organizations);
    SelectedNonempty(tenants, Keys(tenants, organizations), groups);
    actions, ok := [], true;
    NothingTicked(groups[..0], s);
    for i := 0 to |groups|
      invariant if stopper then Ticked(groups[..i], s, actions) else actions == []
      invariant ok <==> (forall g | 0 <= g < i :: s.access(groups[g].aliases[0]).Some?) && forall a | a in actions :: s.accepts(a)
    {
      var access := s.access(groups[i].aliases[0]);
      var more, failures := [], 0;
      if access.Some? && stopper {
        more, failures := Enforce(groups[i].aliases, access.value, s);
      }
      if stopper {
        TickStep(groups, s, i, actions, more);
      }
      ok := ok && access.Some? && failures == 0;
      actions := actions + more;
    }
    assert groups[..|groups|] == groups;
  }

  lemma NothingTicked(groups: seq<Group>, s: Services)
    requires groups == []
    ensures Ticked(groups, s, [])
  {
  }

  /** In one tick no tenant is both resumed and stopped, and every tenant of a denied
      group is asked to stop. */
  lemma NoTenantBothWays(tenants: seq<Tenant>, keys: seq<string>, groups: seq<Group>, s: Services, actions: seq<Action>)
    requires |keys| == |tenants| && Partition(tenants, keys, groups) && Ticked(groups, s, actions) && DistinctTenants(tenants)
    ensures forall t :: !(Resume(t) in actions && Stop(t) in actions)
    ensures forall g, t | 0 <= g < |groups| && t in groups[g].aliases && s.access(groups[g].aliases[0]) == Some(false) :: Stop(t) in actions
  {
    SelectedNonempty(tenants, keys, groups);
    forall t | Resume(t) in actions && Stop(t) in actions ensures false {
      assert Reported(groups, s, true, t) && Reported(groups, s, false, t);
      var a :| 0 <= a < |groups| && t in groups[a].aliases && groups[a].aliases != [] && s.access(groups[a].aliases[0]) == Some(true);
      SelectHolds(tenants, keys, groups[a].key, t);
      var i :| 0 <= i < |tenants| && tenants[i] == t && keys[i] == groups[a].key;
      TenantInOneGroup(tenants, keys, groups, i);
    }
  }
}
