/** Shell sessions: concurrent requests for one session identifier share one tmux creation
    through a table of entries. Entries are compared by identity when they are deleted, and
    a kill removes whatever entry is there. A step is one request's next atomic action. */
module Sessions {
  import opened Basics

  type SessionId = string
  type Pid = nat

  datatype Reply = Fine | Failed(error: string)

  /** `returned` is what tmux answered the creator, `err` the field that waiters read;
      `killed` records that a kill removed the entry. */
  datatype Entry = Entry(id: SessionId, creator: Pid, returned: Option<Reply>, err: Reply, closes: nat, killed: bool)

  datatype Pc =
    | Calling
    | Waiting(entry: nat)
    | Dropping(entry: nat, error: string)
    | Creating(entry: nat)
    | Setting(entry: nat, reply: Reply)
    | Closing(entry: nat, reply: Reply)
    | Deleting(entry: nat, error: string)
    | Opened(entry: nat)
    | Rejected(entry: nat, error: string)
    | Invalid
    | Killing
    | Killed

  datatype Caller = Caller(id: SessionId, kill: bool, pc: Pc)

  datatype State = State(table: map<SessionId, nat>, entries: seq<Entry>, callers: map<Pid, Caller>)

  datatype Choice = Arrive(id: SessionId, kill: bool) | Go | Answer(reply: Reply)

  const INITIAL := State(map[], [], map[])

  function At(s: State, p: Pid, pc: Pc): State
    requires p in s.callers
  {
    s.(callers := s.callers[p := s.callers[p].(pc := pc)])
  }

  /** Removes the entry of `id` if it is still entry `e`. */
  function CompareAndDelete(table: map<SessionId, nat>, id: SessionId, e: nat): map<SessionId, nat> {
    if id in table && table[id] == e then table - {id} else table
  }

  function LoadOrStore(s: State, p: Pid): State
    requires p in s.callers
  {
    var id := s.callers[p].id;
    if id in s.table then At(s, p, Waiting(s.table[id]))
    else
      var e := |s.entries|;
      At(s, p, Creating(e)).(table := s.table[id := e], entries := s.entries + [Entry(id, p, None, Fine, 0, false)])
  }

  function Kill(s: State, p: Pid): State
    requires p in s.callers
  {
    var id := s.callers[p].id;
    var t := At(s, p, Killed).(table := s.table - {id});
    if id in s.table && s.table[id] < |s.entries|
    then t.(entries := s.entries[s.table[id] := s.entries[s.table[id]].(killed := true)])
    else t
  }

  function Step(s: State, p: Pid, choice: Choice): State {
    if p !in s.callers then
      if choice.Arrive? then s.(callers := s.callers[p := Caller(choice.id, choice.kill, Calling)]) else s
    else
      var c := s.callers[p];
      match c.pc
      case Calling =>
        if c.id == "" then At(s, p, Invalid) else if c.kill then At(s, p, Killing) else LoadOrStore(s, p)
      case Waiting(e) =>
        if e < |s.entries| && s.entries[e].closes > 0 then
          At(s, p, if s.entries[e].err.Fine? then Opened(e) else Dropping(e, s.entries[e].err.error))
        else s
      case Dropping(e, error) => At(s, p, Rejected(e, error)).(table := CompareAndDelete(s.table, c.id, e))
      case Creating(e) =>
        if choice.Answer? && e < |s.entries| then
          At(s, p, Setting(e, choice.reply)).(entries := s.entries[e := s.entries[e].(returned := Some(choice.reply))])
        else s
      case Setting(e, reply) =>
        if e < |s.entries| then At(s, p, Closing(e, reply)).(entries := s.entries[e := s.entries[e].(err := reply)]) else s
      case Closing(e, reply) =>
        if e < |s.entries| then
          At(s, p, if reply.Fine? then Opened(e) else Deleting(e, reply.error))
            .(entries := s.entries[e := s.entries[e].(closes := s.entries[e].closes + 1)])
        else s
      case Deleting(e, error) => At(s, p, Rejected(e, error)).(table := CompareAndDelete(s.table, c.id, e))
      case Killing => Kill(s, p)
      case _ => s
  }

  function Run(s: State, schedule: seq<(Pid, Choice)>): State {
    if schedule == [] then s
    else
      var n := |schedule| - 1;
      Step(Run(s, schedule[..n]), schedule[n].0, schedule[n].1)
  }

  // ----- The invariant

  /** The creation failed and everybody can see it. */
  predicate Over(e: Entry) {
    e.closes == 1 && e.returned.Some? && e.returned.value.Failed?
  }

  predicate Creates(pc: Pc, e: nat) {
    (pc.Creating? || pc.Setting? || pc.Closing?) && pc.entry == e
  }

  predicate Of(s: State, c: Caller, e: nat) {
    e < |s.entries| && s.entries[e].id == c.id
  }

  ghost predicate CallerOk(s: State, p: Pid, c: Caller) {
    match c.pc
    case Waiting(e) => Of(s, c, e)
    case Dropping(e, error) => Of(s, c, e) && Over(s.entries[e]) && s.entries[e].returned == Some(Failed(error))
    case Creating(e) => Of(s, c, e) && s.entries[e].creator == p && s.entries[e].closes == 0 && s.entries[e].returned == None
    case Setting(e, reply) =>
      Of(s, c, e) && s.entries[e].creator == p && s.entries[e].closes == 0 && s.entries[e].returned == Some(reply)
    case Closing(e, reply) =>
      && Of(s, c, e) && s.entries[e].creator == p && s.entries[e].closes == 0
      && s.entries[e].returned == Some(reply) && s.entries[e].err == reply
    case Deleting(e, error) => Of(s, c, e) && Over(s.entries[e]) && s.entries[e].returned == Some(Failed(error))
    case Opened(e) => Of(s, c, e) && s.entries[e].closes == 1 && s.entries[e].returned == Some(Fine)
    case Rejected(e, error) =>
      && Of(s, c, e) && Over(s.entries[e]) && s.entries[e].returned == Some(Failed(error))
      && !(c.id in s.table && s.table[c.id] == e)
    case Killing => c.kill
    case Killed => c.kill
    case Invalid => c.id == ""
    case _ => true
  }

  ghost predicate EntryOk(s: State, e: nat, entry: Entry) {
    && (if entry.closes == 0 then entry.creator in s.callers && Creates(s.callers[entry.creator].pc, e)
        else entry.closes == 1 && entry.returned == Some(entry.err))
    && (entry.id in s.table && s.table[entry.id] == e ==> !entry.killed)
    && (!entry.killed && !Over(entry) ==> entry.id in s.table && s.table[entry.id] == e)
  }

  /** Before a later entry for the same session, an entry was killed or its creation failed. */
  ghost predicate Serial(entries: seq<Entry>) {
    forall a, b | 0 <= a < b < |entries| && entries[a].id == entries[b].id :: entries[a].killed || Over(entries[a])
  }

  ghost predicate Valid(s: State) {
    && (forall p | p in s.callers :: CallerOk(s, p, s.callers[p]))
    && (forall e | 0 <= e < |s.entries| :: EntryOk(s, e, s.entries[e]))
    && (forall id | id in s.table :: s.table[id] < |s.entries| && s.entries[s.table[id]].id == id)
    && Serial(s.entries)
  }

  // ----- Each kind of step keeps it

  lemma MoveKeepsValid(s: State, p: Pid, c: Caller)
    requires Valid(s) && CallerOk(s, p, c)
    requires p in s.callers ==> forall e :: Creates(s.callers[p].pc, e) ==> Creates(c.pc, e)
    ensures Valid(s.(callers := s.callers[p := c]))
  {
    hide Serial;
    var s' := s.(callers := s.callers[p := c]);
    forall q | q in s'.callers ensures CallerOk(s', q, s'.callers[q]) {
      assert q != p ==> CallerOk(s, q, s.callers[q]);
    }
  }

  lemma DropKeepsValid(s: State, id: SessionId, e: nat)
    requires Valid(s) && e < |s.entries| && Over(s.entries[e])
    ensures Valid(s.(table := CompareAndDelete(s.table, id, e)))
  {
    hide Serial;
    var s' := s.(table := CompareAndDelete(s.table, id, e));
    forall q | q in s'.callers ensures CallerOk(s', q, s'.callers[q]) {
      assert CallerOk(s, q, s.callers[q]);
    }
    forall b | 0 <= b < |s'.entries| ensures EntryOk(s', b, s'.entries[b]) {
      assert EntryOk(s, b, s.entries[b]);
    }
  }

  lemma KillKeepsCallers(s: State, p: Pid)
    requires Valid(s) && p in s.callers && s.callers[p].pc.Killing?
    ensures var s' := Kill(s, p); forall q | q in s'.callers :: CallerOk(s', q, s'.callers[q])
  {
    hide EntryOk, Serial;
    var s' := Kill(s, p);
    forall q | q in s'.callers ensures CallerOk(s', q, s'.callers[q]) {
      assert CallerOk(s, q, s.callers[q]);
    }
  }

  lemma KillKeepsEntries(s: State, p: Pid)
    requires Valid(s) && p in s.callers && s.callers[p].pc.Killing?
    ensures var s' := Kill(s, p);
            && (forall b | 0 <= b < |s'.entries| :: EntryOk(s', b, s'.entries[b])) && Serial(s'.entries)
            && (forall id | id in s'.table :: s'.table[id] < |s'.entries| && s'.entries[s'.table[id]].id == id)
  {
    hide CallerOk;
    var s' := Kill(s, p);
    forall b | 0 <= b < |s'.entries| ensures EntryOk(s', b, s'.entries[b]) {
      assert EntryOk(s, b, s.entries[b]);
    }
  }

  lemma KillKeepsValid(s: State, p: Pid)
    requires Valid(s) && p in s.callers && s.callers[p].pc.Killing?
    ensures Valid(Kill(s, p))
  {
    KillKeepsCallers(s, p);
    KillKeepsEntries(s, p);
    hide CallerOk, EntryOk, Serial;
  }

  lemma StoreKeepsValid(s: State, p: Pid)
    requires Valid(s) && p in s.callers && s.callers[p].pc.Calling? && s.callers[p].id !in s.table
    ensures Valid(LoadOrStore(s, p))
  {
    var s' := LoadOrStore(s, p);
    forall q | q in s'.callers ensures CallerOk(s', q, s'.callers[q]) {
      assert q != p ==> CallerOk(s, q, s.callers[q]);
    }
    forall b | 0 <= b < |s'.entries| ensures EntryOk(s', b, s'.entries[b]) {
      assert b < |s.entries| ==> EntryOk(s, b, s.entries[b]);
    }
  }

  /** The creator's three steps on its own entry. */
  lemma CreatorKeepsValid(s: State, p: Pid, e: nat, choice: Choice)
    requires Valid(s) && p in s.callers && Creates(s.callers[p].pc, e) && (s.callers[p].pc.Creating? ==> choice.Answer?)
    ensures Valid(Step(s, p, choice))
  {
    CreatorKeepsCallers(s, p, e, choice);
    CreatorKeepsEntries(s, p, e, choice);
    hide CallerOk, EntryOk, Serial;
  }

  lemma CreatorKeepsCallers(s: State, p: Pid, e: nat, choice: Choice)
    requires Valid(s) && p in s.callers && Creates(s.callers[p].pc, e) && (s.callers[p].pc.Creating? ==> choice.Answer?)
    ensures var s' := Step(s, p, choice); forall q | q in s'.callers :: CallerOk(s', q, s'.callers[q])
  {
    hide EntryOk, Serial;
    var s' := Step(s, p, choice);
    assert CallerOk(s, p, s.callers[p]);
    forall q | q in s'.callers ensures CallerOk(s', q, s'.callers[q]) {
      assert CallerOk(s, q, s.callers[q]);
    }
  }

  /** The creator's step changes its own entry only, and nobody else. */
  lemma CreatorChangesOwn(s: State, p: Pid, e: nat, choice: Choice)
    requires Valid(s) && p in s.callers && Creates(s.callers[p].pc, e) && (s.callers[p].pc.Creating? ==> choice.Answer?)
    ensures var s' := Step(s, p, choice);
            && e < |s.entries| && s'.table == s.table && s'.callers == s.callers[p := s'.callers[p]] && p in s'.callers
            && s'.entries == s.entries[e := s'.entries[e]] && EntryOk(s', e, s'.entries[e])
            && s'.entries[e].id == s.entries[e].id && s'.entries[e].killed == s.entries[e].killed && !Over(s.entries[e])
  {
    hide Serial;
    assert CallerOk(s, p, s.callers[p]);
    assert EntryOk(s, e, s.entries[e]);
  }

  lemma CreatorKeepsEntries(s: State, p: Pid, e: nat, choice: Choice)
    requires Valid(s) && p in s.callers && Creates(s.callers[p].pc, e) && (s.callers[p].pc.Creating? ==> choice.Answer?)
    ensures var s' := Step(s, p, choice);
            && (forall b | 0 <= b < |s'.entries| :: EntryOk(s', b, s'.entries[b])) && Serial(s'.entries)
            && (forall id | id in s'.table :: s'.table[id] < |s'.entries| && s'.entries[s'.table[id]].id == id)
  {
    CreatorChangesOwn(s, p, e, choice);
    hide CallerOk, Step;
    var s' := Step(s, p, choice);
    forall b | 0 <= b < |s'.entries| ensures EntryOk(s', b, s'.entries[b]) {
      assert EntryOk(s, b, s.entries[b]);
    }
  }

  lemma ValidAt(s: State, p: Pid)
    requires Valid(s) && p in s.callers
    ensures CallerOk(s, p, s.callers[p]) && (s.callers[p].pc.Killing? ==> s.callers[p].kill)
    ensures s.callers[p].id in s.table ==> Of(s, s.callers[p], s.table[s.callers[p].id])
  {
  }

  lemma StepKeepsValid(s: State, p: Pid, choice: Choice)
    requires Valid(s)
    ensures Valid(Step(s, p, choice))
  {
    hide Valid, Serial, EntryOk;
    if p !in s.callers {
      if choice.Arrive? {
        MoveKeepsValid(s, p, Caller(choice.id, choice.kill, Calling));
      }
    } else {
      var c := s.callers[p];
      ValidAt(s, p);
      match c.pc
      case Calling =>
        if c.id == "" || c.kill || c.id in s.table {
          MoveKeepsValid(s, p, Step(s, p, choice).callers[p]);
        } else {
          StoreKeepsValid(s, p);
        }
      case Waiting(e) => WaitKeepsValid(s, p, e, choice);
      case Dropping(e, error) =>
        DropKeepsValid(s, c.id, e);
        MoveKeepsValid(s.(table := CompareAndDelete(s.table, c.id, e)), p, c.(pc := Rejected(e, error)));
      case Deleting(e, error) =>
        DropKeepsValid(s, c.id, e);
        MoveKeepsValid(s.(table := CompareAndDelete(s.table, c.id, e)), p, c.(pc := Rejected(e, error)));
      case Creating(e) => if choice.Answer? { CreatorKeepsValid(s, p, e, choice); }
      case Setting(e, _) => CreatorKeepsValid(s, p, e, choice);
      case Closing(e, _) => CreatorKeepsValid(s, p, e, choice);
      case Killing => KillKeepsValid(s, p);
      case _ =>
    }
  }

  lemma WaitKeepsValid(s: State, p: Pid, e: nat, choice: Choice)
    requires Valid(s) && p in s.callers && s.callers[p].pc == Waiting(e)
    ensures Valid(Step(s, p, choice))
  {
    hide Serial;
    assert CallerOk(s, p, s.callers[p]);
    assert EntryOk(s, e, s.entries[e]);
    if s.entries[e].closes > 0 {
      MoveKeepsValid(s, p, Step(s, p, choice).callers[p]);
    }
  }

  // ----- What holds in every interleaving, kills included

  lemma {:induction false} RunKeepsValid(s: State, schedule: seq<(Pid, Choice)>)
    requires Valid(s)
    ensures Valid(Run(s, schedule))
  {
    hide Valid, Step;
    if schedule != [] {
      var n := |schedule| - 1;
      RunKeepsValid(s, schedule[..n]);
      StepKeepsValid(Run(s, schedule[..n]), schedule[n].0, schedule[n].1);
    }
  }

  ghost predicate Reachable(s: State) {
    exists schedule :: s == Run(INITIAL, schedule)
  }

  lemma ReachableIsValid(s: State)
    requires Reachable(s)
    ensures Valid(s)
  {
    var schedule :| s == Run(INITIAL, schedule);
    RunKeepsValid(INITIAL, schedule);
  }

  /** Two creations of one session run at once only if a kill removed the older entry. */
  lemma OverlapOnlyAfterKill(s: State, p: Pid, q: Pid, a: nat, b: nat)
    requires Reachable(s) && p in s.callers && q in s.callers && s.callers[p].id == s.callers[q].id
    requires s.callers[p].pc == Creating(a) && s.callers[q].pc == Creating(b) && p != q
    ensures a < |s.entries| && b < |s.entries| && a != b
    ensures (a < b ==> s.entries[a].killed) && (b < a ==> s.entries[b].killed)
  {
    ReachableIsValid(s);
    assert CallerOk(s, p, s.callers[p]) && CallerOk(s, q, s.callers[q]);
  }

  /** A creation starts only when every earlier one for the session has failed or was killed. */
  lemma NoneStartsAfterSuccess(s: State, p: Pid, choice: Choice, e: nat)
    requires Reachable(s) && p in s.callers && |Step(s, p, choice).entries| > |s.entries|
    requires e < |s.entries| && s.entries[e].id == s.callers[p].id
    ensures s.entries[e].killed || Over(s.entries[e])
  {
    ReachableIsValid(s);
    assert EntryOk(s, e, s.entries[e]);
  }

  /** A waiter whose entry is ready leaves with what tmux answered that entry's creator. */
  lemma WaiterGetsEntrysOutcome(s: State, p: Pid, e: nat, choice: Choice)
    requires Reachable(s) && p in s.callers && s.callers[p].pc == Waiting(e)
    ensures e < |s.entries| && s.entries[e].id == s.callers[p].id && (s.entries[e].closes > 0 ==> s.entries[e].returned.Some?)
    ensures Step(s, p, choice).callers[p].pc ==
            if s.entries[e].closes == 0 then Waiting(e)
            else if s.entries[e].returned == Some(Fine) then Opened(e)
            else Dropping(e, s.entries[e].returned.value.error)
  {
    ReachableIsValid(s);
    assert CallerOk(s, p, s.callers[p]);
    assert EntryOk(s, e, s.entries[e]);
  }

  /** A request ends with an error only if tmux answered it to the creator of the entry it
      joined, and with a session only if that creation succeeded. */
  lemma OutcomesAreTmuxs(s: State, p: Pid)
    requires Reachable(s) && p in s.callers
    ensures match s.callers[p].pc
            case Opened(e) => e < |s.entries| && s.entries[e].id == s.callers[p].id && s.entries[e].returned == Some(Fine)
            case Rejected(e, error) =>
              e < |s.entries| && s.entries[e].id == s.callers[p].id && s.entries[e].returned == Some(Failed(error))
            case _ => true
  {
    ReachableIsValid(s);
    assert CallerOk(s, p, s.callers[p]);
  }

  /** Only a kill removes a running or successful entry: a compare-and-delete, however late,
      removes only an entry whose creation failed, and no step replaces an entry. */
  lemma StaleDeleteIsHarmless(s: State, p: Pid, choice: Choice, id: SessionId)
    requires Reachable(s) && id in s.table && s.table[id] < |s.entries|
    requires p in s.callers ==> !s.callers[p].pc.Killing?
    ensures var s' := Step(s, p, choice);
            if id in s'.table then s'.table[id] == s.table[id] else Over(s.entries[s.table[id]])
  {
    ReachableIsValid(s);
    if p in s.callers {
      assert CallerOk(s, p, s.callers[p]);
    }
  }

  /** A request is turned away with an error only when the failed entry is gone, so the next
      one tries again. */
  lemma FailedEntryIsGone(s: State, p: Pid)
    requires Reachable(s) && p in s.callers && s.callers[p].pc.Rejected?
    ensures !(s.callers[p].id in s.table && s.table[s.callers[p].id] == s.callers[p].pc.entry)
  {
    ReachableIsValid(s);
    assert CallerOk(s, p, s.callers[p]);
  }

  /** A request for a session joins its entry or opens a new one, and a kill removes it. */
  lemma RequestsBegin(s: State, p: Pid, choice: Choice)
    requires p in s.callers && s.callers[p].id != ""
    ensures s.callers[p].pc.Calling? && !s.callers[p].kill ==>
              var t, id := Step(s, p, choice), s.callers[p].id;
              if id in s.table then t.callers[p].pc == Waiting(s.table[id]) && t.entries == s.entries && t.table == s.table
              else t.callers[p].pc == Creating(|s.entries|) && |t.entries| == |s.entries| + 1 && id in t.table && t.table[id] == |s.entries|
    ensures s.callers[p].pc.Calling? && s.callers[p].kill ==> Step(s, p, choice).callers[p].pc.Killing?
    ensures s.callers[p].pc.Killing? ==> Step(s, p, choice).callers[p].pc.Killed? && Step(s, p, choice).table == s.table - {s.callers[p].id}
  {
  }

  /** How far a request is from its end at most. */
  function Ahead(pc: Pc): nat {
    match pc
    case Calling => 6
    case Creating(_) => 5
    case Setting(_, _) => 4
    case Closing(_, _) => 3
    case Waiting(_) => 3
    case Dropping(_, _) => 2
    case Deleting(_, _) => 2
    case Killing => 1
    case _ => 0
  }

  predicate Ended(pc: Pc) {
    pc.Opened? || pc.Rejected? || pc.Invalid? || pc.Killed?
  }

  /** A step touches its own request only. */
  lemma OthersAreLeft(s: State, p: Pid, choice: Choice)
    requires p in s.callers
    ensures var t := Step(s, p, choice);
            t.callers == s.callers[p := t.callers[p]] && p in t.callers
            && t.callers[p].id == s.callers[p].id && t.callers[p].kill == s.callers[p].kill
  {
  }

  /** Every step brings its request closer to its end; a request can only wait for tmux or for
      its entry. */
  lemma EveryStepAdvances(s: State, p: Pid, choice: Choice)
    requires Reachable(s) && p in s.callers && !Ended(s.callers[p].pc)
    requires s.callers[p].pc.Creating? ==> choice.Answer?
    requires s.callers[p].pc.Waiting? ==> s.callers[p].pc.entry < |s.entries| && s.entries[s.callers[p].pc.entry].closes > 0
    ensures var t := Step(s, p, choice);
            && p in t.callers && Ahead(t.callers[p].pc) < Ahead(s.callers[p].pc)
            && (Ahead(t.callers[p].pc) == 0 <==> Ended(t.callers[p].pc))
  {
    hide Valid, Reachable;
    ReachableIsValid(s);
    ValidAt(s, p);
  }

  /** Each end is the right one: a session where its creation succeeded, an error where it
      failed, and the rest only for requests without an identifier and for kills. */
  lemma EndsAreRight(s: State, p: Pid)
    requires Reachable(s) && p in s.callers && Ended(s.callers[p].pc)
    ensures match s.callers[p].pc
            case Opened(e) => e < |s.entries| && s.entries[e].id == s.callers[p].id && s.entries[e].returned == Some(Fine)
            case Rejected(e, error) => e < |s.entries| && s.entries[e].id == s.callers[p].id && s.entries[e].returned == Some(Failed(error))
            case Invalid => s.callers[p].id == ""
            case Killed => s.callers[p].kill
            case _ => false
  {
    ReachableIsValid(s);
    assert CallerOk(s, p, s.callers[p]);
  }

  // ----- Runs without a kill of the session

  /** No request of the schedule asks to kill the session. */
  ghost predicate NoKill(schedule: seq<(Pid, Choice)>, id: SessionId) {
    forall i | 0 <= i < |schedule| :: schedule[i].1 != Arrive(id, true)
  }

  ghost predicate Unkilled(s: State, id: SessionId) {
    && (forall p | p in s.callers && s.callers[p].id == id :: !s.callers[p].kill)
    && (forall e | 0 <= e < |s.entries| && s.entries[e].id == id :: !s.entries[e].killed)
  }

  lemma StepKeepsUnkilled(s: State, p: Pid, choice: Choice, id: SessionId)
    requires Valid(s) && Unkilled(s, id) && choice != Arrive(id, true)
    ensures Unkilled(Step(s, p, choice), id)
  {
    hide Valid, CallerOk;
    if p in s.callers {
      ValidAt(s, p);
    }
    TableNamesEntries(s);
    if p in s.callers && s.callers[p].pc.Killing? {
      assert s.callers[p].kill && s.callers[p].id != id;
    }
  }

  lemma TableNamesEntries(s: State)
    requires Valid(s)
    ensures forall id | id in s.table :: s.table[id] < |s.entries| && s.entries[s.table[id]].id == id
  {
  }

  lemma {:induction false} RunKeepsUnkilled(schedule: seq<(Pid, Choice)>, id: SessionId)
    requires NoKill(schedule, id)
    ensures Valid(Run(INITIAL, schedule)) && Unkilled(Run(INITIAL, schedule), id)
  {
    hide Valid, Step;
    RunKeepsValid(INITIAL, schedule) by { assert Valid(INITIAL) by { InitialIsValid(); } }
    if schedule != [] {
      var n := |schedule| - 1;
      RunKeepsUnkilled(schedule[..n], id);
      StepKeepsUnkilled(Run(INITIAL, schedule[..n]), schedule[n].0, schedule[n].1, id);
    }
  }

  lemma InitialIsValid()
    ensures Valid(INITIAL)
  {
  }

  /** Without a kill of the session, at most one creation of it runs, and once one has
      succeeded no other entry for it is ever made. */
  lemma OneCreationWithoutKill(schedule: seq<(Pid, Choice)>, id: SessionId)
    requires NoKill(schedule, id)
    ensures var s := Run(INITIAL, schedule);
            && (forall p, q | p in s.callers && q in s.callers && s.callers[p].id == id == s.callers[q].id ::
                  s.callers[p].pc.Creating? && s.callers[q].pc.Creating? ==> p == q)
            && (forall a, b | 0 <= a < b < |s.entries| && s.entries[a].id == id == s.entries[b].id :: Over(s.entries[a]))
  {
    var s := Run(INITIAL, schedule);
    RunKeepsUnkilled(schedule, id);
    forall p, q | p in s.callers && q in s.callers && s.callers[p].id == id == s.callers[q].id
                  && s.callers[p].pc.Creating? && s.callers[q].pc.Creating?
      ensures p == q
    {
      assert CallerOk(s, p, s.callers[p]) && CallerOk(s, q, s.callers[q]);
    }
  }

  /** A kill while a creation runs lets the next request start a second one beside it. */
  lemma KillLetsCreationsOverlap(s: State, creator: Pid, killer: Pid, next: Pid)
    requires Valid(s) && creator in s.callers && killer in s.callers && next in s.callers
    requires s.callers[creator].pc.Creating? && s.callers[killer].pc.Killing? && s.callers[next].pc.Calling?
    requires s.callers[creator].id == s.callers[killer].id == s.callers[next].id != "" && !s.callers[next].kill
    ensures var s' := Step(Step(s, killer, Go), next, Go);
            s'.callers[creator].pc.Creating? && s'.callers[next].pc.Creating? && creator != next
  {
  }

  /** Request 0 creates; request 1 kills; request 2 creates again, all for one session. */
  function Overlapping(id: SessionId): seq<(Pid, Choice)> {
    [(0, Arrive(id, false)), (0, Go), (1, Arrive(id, true)), (1, Go), (2, Arrive(id, false)), (1, Go), (2, Go)]
  }

  function AfterCreation(id: SessionId): State {
    Step(Step(INITIAL, 0, Arrive(id, false)), 0, Go)
  }

  function AfterArrivals(id: SessionId): State {
    Step(Step(Step(AfterCreation(id), 1, Arrive(id, true)), 1, Go), 2, Arrive(id, false))
  }

  lemma OverlappingUnfolds(id: SessionId)
    ensures Run(INITIAL, Overlapping(id)) == Step(Step(AfterArrivals(id), 1, Go), 2, Go)
  {
    hide Step;
    var all := Overlapping(id);
    assert all[..6][..5] == all[..5] && all[..5][..4] == all[..4] && all[..4][..3] == all[..3]
           && all[..3][..2] == all[..2] && all[..2][..1] == all[..1];
    assert Run(INITIAL, all[..1]) == Step(Run(INITIAL, []), 0, Arrive(id, false));
    assert Run(INITIAL, all[..2]) == AfterCreation(id);
    assert Run(INITIAL, all[..3]) == Step(AfterCreation(id), 1, Arrive(id, true));
    assert Run(INITIAL, all[..4]) == Step(Step(AfterCreation(id), 1, Arrive(id, true)), 1, Go);
    assert Run(INITIAL, all[..5]) == AfterArrivals(id);
    assert Run(INITIAL, all[..6]) == Step(AfterArrivals(id), 1, Go);
  }

  /** So from the start, with one kill, two creations of one session come to overlap. */
  lemma CreationsDoOverlap(id: SessionId)
    requires id != ""
    ensures var s := Run(INITIAL, Overlapping(id));
            && 0 in s.callers && 2 in s.callers && s.callers[0].id == id == s.callers[2].id
            && s.callers[0].pc == Creating(0) && s.callers[2].pc == Creating(1) && |s.entries| == 2 && s.entries[0].killed
  {
    OverlappingUnfolds(id);
    hide Run;
    var created := AfterCreation(id);
    assert created == State(map[id := 0], [Entry(id, 0, None, Fine, 0, false)], map[0 := Caller(id, false, Creating(0))]);
    var arrived := AfterArrivals(id);
    assert arrived == State(created.table, created.entries,
                            created.callers[1 := Caller(id, true, Killing)][2 := Caller(id, false, Calling)]);
    var killed := Step(arrived, 1, Go);
    assert killed.entries == [created.entries[0].(killed := true)] && id !in killed.table;
  }

  function StepsLeft(pc: Pc): nat {
    match pc
    case Creating(_) => 3
    case Setting(_, _) => 2
    case Closing(_, _) => 1
    case _ => 0
  }

  /** The creator's next step, which nobody can prevent, brings it closer to the end. */
  lemma CreatorAdvances(s: State, c: Pid, e: nat, reply: Reply)
    requires c in s.callers && Creates(s.callers[c].pc, e) && e < |s.entries| && s.entries[e].closes == 0
    ensures var t := Step(s, c, Answer(reply));
            && t.callers == s.callers[c := t.callers[c]] && c in t.callers && |t.entries| == |s.entries|
            && if s.callers[c].pc.Closing? then t.entries[e].closes == 1
               else t.entries[e].closes == 0 && Creates(t.callers[c].pc, e) && StepsLeft(t.callers[c].pc) + 1 == StepsLeft(s.callers[c].pc)
  {
  }

  lemma {:induction false} CreatorReleases(s: State, c: Pid, p: Pid, e: nat, reply: Reply) returns (steps: seq<(Pid, Choice)>)
    requires c in s.callers && Creates(s.callers[c].pc, e) && e < |s.entries| && s.entries[e].closes == 0
    requires p in s.callers && s.callers[p].pc == Waiting(e)
    ensures |steps| <= StepsLeft(s.callers[c].pc) && forall i | 0 <= i < |steps| :: steps[i].0 == c
    ensures var end := Run(s, steps);
            e < |end.entries| && end.entries[e].closes == 1 && p in end.callers && end.callers[p].pc == Waiting(e)
    decreases StepsLeft(s.callers[c].pc)
  {
    hide Step, Run;
    CreatorAdvances(s, c, e, reply);
    var t := Step(s, c, Answer(reply));
    var rest: seq<(Pid, Choice)> := [];
    if s.callers[c].pc.Closing? {
      RunOfNone(t);
    } else {
      rest := CreatorReleases(t, c, p, e, reply);
    }
    steps := [(c, Answer(reply))] + rest;
    RunFrom(s, steps);
    assert steps[1..] == rest;
  }

  lemma RunOfNone(s: State)
    ensures Run(s, []) == s
  {
  }

  /** The steps are all `p`'s own, at most three, and make entry `e` ready. */
  ghost predicate Releases(s: State, steps: seq<(Pid, Choice)>, p: Pid, e: nat) {
    && |steps| <= 3 && (forall i | 0 <= i < |steps| :: steps[i].0 == p)
    && e < |Run(s, steps).entries| && Run(s, steps).entries[e].closes == 1
  }

  /** A waiter is never stranded: the creator of its entry can make it ready in at most
      three steps of its own, whatever tmux answers and whoever killed the entry. */
  lemma CreatorCanRelease(s: State, p: Pid, e: nat, reply: Reply)
    requires Reachable(s) && p in s.callers && s.callers[p].pc == Waiting(e)
    ensures e < |s.entries| && exists steps :: Releases(s, steps, s.entries[e].creator, e)
  {
    hide Serial, Run;
    ReachableIsValid(s);
    assert CallerOk(s, p, s.callers[p]);
    assert EntryOk(s, e, s.entries[e]);
    var steps := [];
    if s.entries[e].closes == 0 {
      steps := CreatorReleases(s, s.entries[e].creator, p, e, reply);
    } else {
      RunOfNone(s);
    }
    assert Releases(s, steps, s.entries[e].creator, e);
  }

  lemma {:induction false} RunFrom(s: State, steps: seq<(Pid, Choice)>)
    requires steps != []
    ensures Run(s, steps) == Run(Step(s, steps[0].0, steps[0].1), steps[1..])
  {
    hide Step;
    var n := |steps| - 1;
    if n > 0 {
      RunFrom(s, steps[..n]);
      assert steps[..n][1..] == steps[1..][..n - 1];
    } else {
      assert Run(s, steps[..0]) == s;
    }
  }
}
