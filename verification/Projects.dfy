/** Agent projects, the deployment stamp, and the comparison of a stored agent with its
    project. */
module Projects {
  import opened Basics
  import opened Fleet
  import opened Triggers

  /** A loaded project. `compiles` is false when its revision manifest or its config
      cannot be built; `paths` lists its subagent directories, if it has any. */
  datatype Project = Project(
    name: string, definition: Definition, compiles: bool, digest: string, hash: string,
    triggers: seq<TriggerSpec>, paths: Option<map<string, string>>)

  datatype Graph = Graph(root: Project, children: seq<Project>)

  const STAMP_FORMAT := 2
  const STAMP_SOURCE := "evs deploy"

  function Members(graph: Graph): seq<Project> {
    [graph.root] + graph.children
  }

  function ModeOf(i: nat): Mode {
    if i == 0 then Primary else Subagent
  }

  /** What the project loader guarantees. */
  ghost predicate LoadedGraph(graph: Graph) {
    var ms := Members(graph);
    && (forall i | 0 <= i < |ms| :: Loaded(ms[i].triggers) && ms[i].hash != "")
    && (forall i, j | 0 <= i < j < |ms| :: ms[i].name != ms[j].name)
  }

  // ----- Reading stamps

  function EntryNames(entries: seq<ManagedEntry>): (r: seq<string>)
    ensures |r| == |entries|
  {
    seq(|entries|, i requires 0 <= i < |entries| => entries[i].name)
  }

  function TriggerNames(decl: seq<TriggerSpec>): (r: seq<string>)
    ensures |r| == |decl|
  {
    seq(|decl|, i requires 0 <= i < |decl| => decl[i].name)
  }

  /** The names a stamp lists, whatever identifiers go with them. */
  function ListedNames(m: Managed): seq<string> {
    if m.Entries? then EntryNames(m.entries) else []
  }

  /** Equality of stamps up to the deployment time, the trigger identifiers and the order
      of the trigger list. */
  predicate StampMatches(s: Stamp, p: Project) {
    && s.Stamp?
    && s.source == STAMP_SOURCE && s.hash == p.hash && s.format == STAMP_FORMAT
    && !s.managed.Absent? && multiset(ListedNames(s.managed)) == multiset(TriggerNames(p.triggers))
    && s.paths == p.paths
  }

  predicate AgentMatches(a: Agent, p: Project, mode: Mode, stamped: bool) {
    && a.name == p.name && a.definition == p.definition && a.mode == mode
    && if stamped then a.stamp.Some? && StampMatches(a.stamp.value, p) else a.stamp.None?
  }

  ghost predicate DistinctEntries(entries: seq<ManagedEntry>) {
    forall i, j | 0 <= i < j < |entries| :: entries[i].id != entries[j].id && entries[i].name != entries[j].name
  }

  ghost predicate FilledEntries(entries: seq<ManagedEntry>) {
    forall i | 0 <= i < |entries| :: entries[i].id != 0 && entries[i].name != ""
  }

  /** The structural validity that an unforced run demands of a stamp. */
  ghost predicate WellStamped(stamp: Option<Stamp>) {
    && stamp.Some? && stamp.value.Stamp?
    && var s := stamp.value;
       && s.source == STAMP_SOURCE && s.hash != "" && s.format == STAMP_FORMAT
       && s.deployedAt.Some? && s.managed.Entries?
       && FilledEntries(s.managed.entries) && DistinctEntries(s.managed.entries)
  }

  method CheckDrift(stamp: Option<Stamp>) returns (ok: bool)
    ensures ok <==> WellStamped(stamp)
  {
    if stamp.None? || stamp.value.NotAnObject? {
      return false;
    }
    var s := stamp.value;
    if s.source != STAMP_SOURCE || s.hash == "" || s.format != STAMP_FORMAT || s.deployedAt.None? || !s.managed.Entries? {
      return false;
    }
    var entries := s.managed.entries;
    var seenIds: set<Id> := {};
    var seenNames: set<string> := {};
    for i := 0 to |entries|
      invariant FilledEntries(entries[..i]) && DistinctEntries(entries[..i])
      invariant seenIds == set k | 0 <= k < i :: entries[k].id
      invariant seenNames == set k | 0 <= k < i :: entries[k].name
    {
      var e := entries[i];
      if e.id == 0 || e.name == "" {
        return false;
      }
      if e.id in seenIds || e.name in seenNames {
        var k :| 0 <= k < i && (entries[k].id == e.id || entries[k].name == e.name);
        assert !DistinctEntries(entries);
        return false;
      }
      seenIds := seenIds + {e.id};
      seenNames := seenNames + {e.name};
    }
    assert entries[..|entries|] == entries;
    ok := true;
  }

  ghost function ManagedEntries(entries: seq<ManagedEntry>): map<Id, string> {
    if entries == [] then map[]
    else
      var rest := ManagedEntries(entries[..|entries| - 1]);
      var e := entries[|entries| - 1];
      if e.id != 0 && e.name != "" then rest[e.id := e.name] else rest
  }

  /** The ownership an agent's stamp records. */
  ghost function ManagedOf(stamp: Option<Stamp>): map<Id, string> {
    if stamp.Some? && stamp.value.Stamp? && stamp.value.managed.Entries?
    then ManagedEntries(stamp.value.managed.entries) else map[]
  }

  method StampManagedTriggers(stamp: Option<Stamp>) returns (managed: map<Id, string>)
    ensures managed == ManagedOf(stamp)
  {
    managed := map[];
    if stamp.Some? && stamp.value.Stamp? && stamp.value.managed.Entries? {
      var entries := stamp.value.managed.entries;
      for i := 0 to |entries|
        invariant managed == ManagedEntries(entries[..i])
      {
        assert entries[..i + 1][..i] == entries[..i];
        if entries[i].id != 0 && entries[i].name != "" {
          managed := managed[entries[i].id := entries[i].name];
        }
      }
      assert entries[..|entries|] == entries;
    }
  }

  /** Every recorded pair stems from an entry. */
  lemma {:induction false} ManagedComesFrom(entries: seq<ManagedEntry>, id: Id) returns (k: nat)
    requires id in ManagedEntries(entries)
    ensures k < |entries| && entries[k] == ManagedEntry(id, ManagedEntries(entries)[id]) && id != 0
  {
    var n := |entries| - 1;
    if entries[n].id == id && entries[n].name != "" && id != 0 {
      k := n;
    } else {
      k := ManagedComesFrom(entries[..n], id);
    }
  }

  /** With distinct identifiers, every filled entry is recorded. */
  lemma {:induction false} ManagedHolds(entries: seq<ManagedEntry>, k: nat)
    requires k < |entries| && FilledEntries(entries)
    requires forall i, j | 0 <= i < j < |entries| :: entries[i].id != entries[j].id
    ensures entries[k].id in ManagedEntries(entries) && ManagedEntries(entries)[entries[k].id] == entries[k].name
  {
    var n := |entries| - 1;
    if k < n {
      ManagedHolds(entries[..n], k);
    }
  }

  lemma OccursOnce(s: seq<string>, i: nat, j: nat)
    requires i < j < |s| && s[i] == s[j]
    ensures multiset(s)[s[i]] >= 2
  {
    assert s == s[..j] + s[j..];
    assert s[i] in s[..j] && s[j] in s[j..];
    assert multiset(s[..j])[s[i]] >= 1 && multiset(s[j..])[s[i]] >= 1;
  }

  lemma {:induction false} DistinctCount(s: seq<string>, x: string)
    requires forall i, j | 0 <= i < j < |s| :: s[i] != s[j]
    ensures multiset(s)[x] <= 1
  {
    if s != [] {
      var n := |s| - 1;
      assert s == s[..n] + [s[n]];
      DistinctCount(s[..n], x);
      if s[n] == x {
        assert x !in s[..n];
      }
    }
  }

  /** A stamp that matches its project never records one name twice. */
  lemma MatchingStampIsInjective(s: Stamp, p: Project)
    requires StampMatches(s, p) && Loaded(p.triggers)
    ensures Injective(ManagedOf(Some(s))) && 0 !in ManagedOf(Some(s))
    ensures forall id | id in ManagedOf(Some(s)) :: Declares(p.triggers, ManagedOf(Some(s))[id])
  {
    if s.managed.Entries? {
      var entries := s.managed.entries;
      var m := ManagedEntries(entries);
      var names := EntryNames(entries);
      var declared := TriggerNames(p.triggers);
      if 0 in m {
        var _ := ManagedComesFrom(entries, 0);
      }
      forall a, b | a in m && b in m && m[a] == m[b] ensures a == b {
        var i := ManagedComesFrom(entries, a);
        var j := ManagedComesFrom(entries, b);
        assert names[i] == names[j] == m[a];
        DistinctCount(declared, names[i]);
        if i < j { OccursOnce(names, i, j); }
        if j < i { OccursOnce(names, j, i); }
      }
      forall id | id in m ensures Declares(p.triggers, m[id]) {
        var i := ManagedComesFrom(entries, id);
        assert names[i] in multiset(names);
        assert names[i] in declared;
      }
    }
  }

  // ----- Writing stamps

  /** The stamp's trigger list: each declared name with an identifier recorded for it. */
  method ManagedTriggerManifest(decl: seq<TriggerSpec>, ids: map<Id, string>) returns (entries: seq<ManagedEntry>)
    ensures |entries| == |decl|
    ensures forall i | 0 <= i < |decl| :: entries[i].name == decl[i].name
    ensures forall i | 0 <= i < |decl| ::
      if decl[i].name in ids.Values then entries[i].id in ids && ids[entries[i].id] == decl[i].name else entries[i].id == 0
  {
    entries := [];
    for i := 0 to |decl|
      invariant |entries| == i
      invariant forall k | 0 <= k < i :: entries[k].name == decl[k].name
      invariant forall k | 0 <= k < i ::
        if decl[k].name in ids.Values then entries[k].id in ids && ids[entries[k].id] == decl[k].name else entries[k].id == 0
    {
      var id := 0;
      if exists candidate | candidate in ids :: ids[candidate] == decl[i].name {
        id :| id in ids && ids[id] == decl[i].name;
      }
      entries := entries + [ManagedEntry(id, decl[i].name)];
    }
  }

  function NewStamp(p: Project, entries: seq<ManagedEntry>, now: int): Stamp {
    Stamp(STAMP_SOURCE, p.hash, STAMP_FORMAT, Some(now), Entries(entries), p.paths)
  }

  /** `managed` records, for every declared trigger, the trigger that bears its name. */
  ghost predicate Records(actual: map<Id, TriggerSpec>, decl: seq<TriggerSpec>, managed: map<Id, string>) {
    && (forall id | id in managed :: id != 0 && id in actual && actual[id].name == managed[id])
    && (forall i | 0 <= i < |decl| :: decl[i].name in managed.Values)
  }

  /** A stamp written from verified ownership is structurally valid, matches its project,
      and yields the same verdict on the triggers when it is read back. */
  lemma NewStampIsFaithful(actual: map<Id, TriggerSpec>, p: Project, prev: map<Id, string>, managed: map<Id, string>,
                           entries: seq<ManagedEntry>, now: int)
    requires Loaded(p.triggers) && p.hash != ""
    requires TriggersMatch(actual, p.triggers, prev) && Records(actual, p.triggers, managed)
    requires |entries| == |p.triggers|
    requires forall i | 0 <= i < |p.triggers| ::
      entries[i].name == p.triggers[i].name && entries[i].id in managed && managed[entries[i].id] == p.triggers[i].name
    ensures StampMatches(NewStamp(p, entries, now), p) && WellStamped(Some(NewStamp(p, entries, now)))
    ensures TriggersMatch(actual, p.triggers, ManagedOf(Some(NewStamp(p, entries, now))))
  {
    hide TriggersMatch, ManagedEntries, Served;
    var decl := p.triggers;
    assert EntryNames(entries) == TriggerNames(decl);
    forall i, j | 0 <= i < j < |entries| ensures entries[i].id != entries[j].id {
      assert managed[entries[i].id] != managed[entries[j].id];
    }
    assert FilledEntries(entries) && DistinctEntries(entries);
    FaithfulTriggers(actual, decl, prev, entries);
  }

  lemma FaithfulTriggers(actual: map<Id, TriggerSpec>, decl: seq<TriggerSpec>, prev: map<Id, string>, entries: seq<ManagedEntry>)
    requires TriggersMatch(actual, decl, prev) && FilledEntries(entries) && DistinctEntries(entries) && |entries| == |decl|
    requires forall i | 0 <= i < |decl| ::
      entries[i].name == decl[i].name && entries[i].id in actual && actual[entries[i].id].name == decl[i].name
    ensures TriggersMatch(actual, decl, ManagedEntries(entries))
  {
    var m := ManagedEntries(entries);
    forall i | 0 <= i < |decl| ensures Served(actual, m, decl[i]) {
      assert Served(actual, prev, decl[i]);
      var id :| Serves(actual, prev, id, decl[i]);
      ManagedHolds(entries, i);
      assert Serves(actual, m, id, decl[i]);
    }
    forall id | id in m ensures Declares(decl, m[id]) {
      var k := ManagedComesFrom(entries, id);
      assert decl[k].name == m[id];
    }
  }
}
