/** Evaluations and user commands, each of which reads an event, perhaps notifies, and
    writes the whole record back: what their interleavings do to the life of an event. */
module AlertSchedules {
  import opened Basics
  import opened Alerts

  type Pid = nat

  /** An event as it was read, and where it is stored. */
  datatype Found = Found(index: nat, seen: Event)

  /** Where a command stands: before its read, before its notification or write, after its
      notification (with the place of the delivery in the log), or done. */
  datatype Pc = Begun | Seen(found: Option<Found>) | Told(found: Option<Found>, note: Option<nat>) | Ended

  datatype Proc = Proc(command: Command, pc: Pc)
  datatype Shared = Shared(state: State, procs: map<Pid, Proc>)

  function Start(commands: map<Pid, Command>): Shared {
    Shared(NOTHING, map p | p in commands :: Proc(commands[p], Begun))
  }

  function At(m: Shared, p: Pid, pc: Pc): Shared
    requires p in m.procs
  {
    m.(procs := m.procs[p := m.procs[p].(pc := pc)])
  }

  function Look(s: State, c: Command): Option<Found> {
    if c.Tick? then
      var active := ActiveEvent(s.events, c.rule.id);
      if active.Some? then Some(Found(active.value, s.events[active.value])) else None
    else if c.event < |s.events| then Some(Found(c.event, s.events[c.event])) else None
  }

  /** An evaluation notifies of what it has read. */
  predicate Notifies(c: Command, found: Option<Found>)
    requires Polled(c)
  {
    Breaches(c) && (found.None? || (found.value.seen.status.Firing? && Due(found.value.seen, c.now)))
  }

  function Index(found: Option<Found>): Option<nat> {
    if found.Some? then Some(found.value.index) else None
  }

  /** The record is written back as it was read, but for what the command changes. */
  function Overwrite(s: State, found: Found, e: Event): State {
    if found.index < |s.events| then s.(events := s.events[found.index := e]) else s
  }

  /** The delivery that announced a new event belongs to it. */
  function Attributed(ds: seq<Delivery>, note: Option<nat>, event: nat): seq<Delivery> {
    if note.Some? && note.value < |ds| then ds[note.value := ds[note.value].(event := Some(event))] else ds
  }

  function Create(s: State, c: Command, note: Option<nat>): State
    requires c.Tick?
  {
    State(s.events + [NewEvent(c.rule.id, c.now, c.delivered)], Attributed(s.deliveries, note, |s.events|))
  }

  function Read(m: Shared, p: Pid): Shared
    requires p in m.procs
  {
    var c := m.procs[p].command;
    if c.Tick? then At(m, p, if Polled(c) then Seen(Look(m.state, c)) else Ended)
    else At(m, p, if c.event < |m.state.events| then Seen(Look(m.state, c)) else Ended)
  }

  /** What follows an evaluation's read: a notification, the write that resolves, or nothing. */
  function Evaluate(m: Shared, p: Pid, found: Option<Found>): Shared
    requires p in m.procs && Polled(m.procs[p].command)
  {
    var c := m.procs[p].command;
    if Notifies(c, found) then
      At(m, p, Told(found, if c.delivered > 0 then Some(|m.state.deliveries|) else None))
        .(state := Notified(m.state, Index(found), c.now, c.delivered))
    else if !Breaches(c) && found.Some? && c.stored then
      At(m, p, Ended).(state := Overwrite(m.state, found.value, found.value.seen.(status := Resolved)))
    else At(m, p, Ended)
  }

  /** The write that follows a notification. */
  function Record(m: Shared, p: Pid, found: Option<Found>, note: Option<nat>): Shared
    requires p in m.procs && m.procs[p].command.Tick?
  {
    var c := m.procs[p].command;
    if !c.stored then At(m, p, Ended)
    else if found.None? then At(m, p, Ended).(state := Create(m.state, c, note))
    else At(m, p, Ended).(state := Overwrite(m.state, found.value, Renotified(found.value.seen, c.now, c.delivered)))
  }

  function UserStatus(c: Command): Status
    requires !c.Tick?
  {
    if c.Acknowledge? then Acknowledged else Resolved
  }

  function StepOf(m: Shared, p: Pid): Shared {
    if p !in m.procs then m
    else
      var c := m.procs[p].command;
      match m.procs[p].pc
      case Begun => Read(m, p)
      case Seen(found) =>
        if Polled(c) then Evaluate(m, p, found)
        else if c.Tick? || found.None? then At(m, p, Ended)
        else At(m, p, Ended).(state := Overwrite(m.state, found.value, found.value.seen.(status := UserStatus(c))))
      case Told(found, note) => if c.Tick? then Record(m, p, found, note) else At(m, p, Ended)
      case Ended => m
  }

  function RunOf(m: Shared, schedule: seq<Pid>): Shared {
    if schedule == [] then m else StepOf(RunOf(m, schedule[..|schedule| - 1]), schedule[|schedule| - 1])
  }

  /** The commands in the order in which they end. */
  function Finished(m: Shared, schedule: seq<Pid>): seq<Command> {
    if schedule == [] then []
    else
      var before, p := RunOf(m, schedule[..|schedule| - 1]), schedule[|schedule| - 1];
      Finished(m, schedule[..|schedule| - 1]) +
        if p in before.procs && p in StepOf(before, p).procs && !before.procs[p].pc.Ended? && StepOf(before, p).procs[p].pc.Ended?
        then [before.procs[p].command] else []
  }

  // ----- Schedules in which reads and writes do not mix

  /** Between its read and its end. */
  predicate Open(q: Proc) {
    q.pc.Seen? || q.pc.Told?
  }

  /** The step of `p` does not fall between the read and the write of an evaluation, nor is
      it an evaluation's step between those of a user command. */
  ghost predicate Apart(m: Shared, p: Pid) {
    p in m.procs ==>
      forall q | q in m.procs && q != p && Open(m.procs[q]) :: !m.procs[p].command.Tick? && !m.procs[q].command.Tick?
  }

  ghost predicate Isolated(m: Shared, schedule: seq<Pid>) {
    forall k | 0 <= k < |schedule| :: Apart(RunOf(m, schedule[..k]), schedule[k])
  }

  /** No evaluation is between its read and its end. */
  ghost predicate Quiet(m: Shared) {
    forall q | q in m.procs && m.procs[q].command.Tick? :: !Open(m.procs[q])
  }

  // ----- Such schedules are runs of whole commands

  /** A user's record is current but for the status. */
  ghost predicate Current(s: State, q: Proc) {
    q.pc.Seen? && q.pc.found.Some? && !q.command.Tick? && q.command.event == q.pc.found.value.index
    && q.pc.found.value.index < |s.events|
    && q.pc.found.value.seen == s.events[q.pc.found.value.index].(status := q.pc.found.value.seen.status)
  }

  /** The state of an open evaluation, over the state `a` that it read. */
  ghost predicate UnderWay(a: State, s: State, q: Proc) {
    && Polled(q.command)
    && match q.pc
       case Seen(found) => s == a && found == Look(a, q.command)
       case Told(found, note) =>
         && found == Look(a, q.command) && Notifies(q.command, found)
         && s == Notified(a, Index(found), q.command.now, q.command.delivered)
         && note == (if q.command.delivered > 0 then Some(|a.deliveries|) else None)
       case _ => false
  }

  /** The shared state is what the finished commands make of it, one after the other, apart
      from one open evaluation. */
  ghost predicate Aligned(m: Shared, a: State) {
    if Quiet(m) then
      m.state == a && forall q | q in m.procs && Open(m.procs[q]) :: Current(a, m.procs[q])
    else
      exists e :: e in m.procs && m.procs[e].command.Tick? && Open(m.procs[e]) && UnderWay(a, m.state, m.procs[e])
                  && forall q | q in m.procs && q != e :: !Open(m.procs[q])
  }

  ghost predicate Ends(m: Shared, p: Pid) {
    p in m.procs && p in StepOf(m, p).procs && !m.procs[p].pc.Ended? && StepOf(m, p).procs[p].pc.Ended?
  }

  /** What the state becomes when the step of `p` ends its command, or not. */
  ghost function Next(m: Shared, a: State, p: Pid): State {
    if Ends(m, p) then Step(a, m.procs[p].command) else a
  }

  /** A user command's step. */
  lemma UserStep(m: Shared, a: State, p: Pid)
    requires p in m.procs && !m.procs[p].command.Tick? && Apart(m, p) && Aligned(m, a)
    ensures Aligned(StepOf(m, p), Next(m, a, p))
  {
    var c := m.procs[p].command;
    forall e | e in m.procs && m.procs[e].command.Tick? ensures !Open(m.procs[e]) {
    }
    assert Quiet(m);
    var t := StepOf(m, p);
    assert Quiet(t);
    forall q | q in t.procs && Open(t.procs[q]) ensures Current(t.state, t.procs[q]) {
      if q != p {
        assert Current(a, m.procs[q]);
      }
    }
    if m.procs[p].pc.Seen? {
      assert Current(a, m.procs[p]);
    }
  }

  /** An evaluation's read. */
  lemma EvaluationReads(m: Shared, a: State, p: Pid)
    requires p in m.procs && m.procs[p].command.Tick? && m.procs[p].pc.Begun? && Apart(m, p) && Aligned(m, a)
    ensures Aligned(StepOf(m, p), Next(m, a, p))
  {
    NothingElseOpen(m, a, p);
    var t := StepOf(m, p);
    if Polled(m.procs[p].command) {
      assert UnderWay(a, t.state, t.procs[p]);
      assert !Quiet(t);
    } else {
      assert Quiet(t);
    }
  }

  lemma NothingElseOpen(m: Shared, a: State, p: Pid)
    requires p in m.procs && m.procs[p].command.Tick? && Apart(m, p) && Aligned(m, a)
    ensures forall q | q in m.procs && q != p :: !Open(m.procs[q])
    ensures if Open(m.procs[p]) then UnderWay(a, m.state, m.procs[p]) else m.state == a
  {
    forall q | q in m.procs && q != p ensures !Open(m.procs[q]) {
    }
    assert Open(m.procs[p]) <==> !Quiet(m);
  }

  /** An evaluation's step after its read. */
  lemma EvaluationProceeds(m: Shared, a: State, p: Pid)
    requires p in m.procs && m.procs[p].command.Tick? && m.procs[p].pc.Seen? && Apart(m, p) && Aligned(m, a)
    ensures Aligned(StepOf(m, p), Next(m, a, p))
  {
    NothingElseOpen(m, a, p);
    var t := StepOf(m, p);
    if Notifies(m.procs[p].command, m.procs[p].pc.found) {
      assert UnderWay(a, t.state, t.procs[p]);
      assert !Quiet(t);
    } else {
      assert Quiet(t);
    }
  }

  /** An evaluation's write. */
  lemma EvaluationRecords(m: Shared, a: State, p: Pid)
    requires p in m.procs && m.procs[p].command.Tick? && m.procs[p].pc.Told? && Apart(m, p) && Aligned(m, a)
    ensures Aligned(StepOf(m, p), Next(m, a, p))
  {
    NothingElseOpen(m, a, p);
    assert Quiet(StepOf(m, p));
    RecordIsTick(m, a, p);
  }

  lemma RecordIsTick(m: Shared, a: State, p: Pid)
    requires p in m.procs && m.procs[p].command.Tick? && m.procs[p].pc.Told? && UnderWay(a, m.state, m.procs[p])
    ensures StepOf(m, p).state == Step(a, m.procs[p].command)
  {
    var c := m.procs[p].command;
    var found, note := m.procs[p].pc.found, m.procs[p].pc.note;
    if found.None? && c.delivered > 0 {
      var d := Delivery(None, c.now, c.delivered);
      assert (a.deliveries + [d])[|a.deliveries| := d.(event := Some(|a.events|))] == a.deliveries + [d.(event := Some(|a.events|))];
    }
  }

  lemma StepKeepsAligned(m: Shared, a: State, p: Pid)
    requires Apart(m, p) && Aligned(m, a)
    ensures Aligned(StepOf(m, p), Next(m, a, p))
  {
    hide Aligned, Apart;
    if p in m.procs {
      if !m.procs[p].command.Tick? {
        UserStep(m, a, p);
      } else {
        match m.procs[p].pc
        case Begun => EvaluationReads(m, a, p);
        case Seen(_) => EvaluationProceeds(m, a, p);
        case Told(_, _) => EvaluationRecords(m, a, p);
        case Ended =>
      }
    }
  }

  lemma {:induction false} RunIsAligned(commands: map<Pid, Command>, schedule: seq<Pid>)
    requires Isolated(Start(commands), schedule)
    ensures Aligned(RunOf(Start(commands), schedule), Run(NOTHING, Finished(Start(commands), schedule)))
  {
    var m := Start(commands);
    if schedule != [] {
      hide Aligned, StepOf, Step, Apart;
      var init, p := schedule[..|schedule| - 1], schedule[|schedule| - 1];
      assert forall k | 0 <= k < |init| :: init[..k] == schedule[..k] && init[k] == schedule[k];
      RunIsAligned(commands, init);
      var before, cs := RunOf(m, init), Finished(m, init);
      assert Apart(before, p);
      StepKeepsAligned(before, Run(NOTHING, cs), p);
      if Ends(before, p) {
        assert (cs + [before.procs[p].command])[..|cs|] == cs;
      } else {
        assert Finished(m, schedule) == cs;
      }
    }
  }

  /** Whenever no evaluation is under way, such a schedule has done what its commands do one
      after the other, in the order in which they ended. */
  lemma IsolatedIsSerial(commands: map<Pid, Command>, schedule: seq<Pid>)
    requires Isolated(Start(commands), schedule) && Quiet(RunOf(Start(commands), schedule))
    ensures RunOf(Start(commands), schedule).state == Run(NOTHING, Finished(Start(commands), schedule))
  {
    hide RunOf, Finished, Run;
    RunIsAligned(commands, schedule);
  }

  // ----- What the life of events keeps in such schedules

  /** Counts and spacing hold exactly if no delivery was forgotten. */
  lemma IsolatedDeliveries(commands: map<Pid, Command>, schedule: seq<Pid>)
    requires Isolated(Start(commands), schedule) && Quiet(RunOf(Start(commands), schedule))
    ensures Honest(RunOf(Start(commands), schedule).state) <==> NeverForgets(NOTHING, Finished(Start(commands), schedule))
  {
    hide RunOf, Finished, Run, Isolated, Quiet, NeverForgets;
    IsolatedIsSerial(commands, schedule);
    assert Honest(NOTHING);
    hide Honest;
    DeliveriesAreRecordedExactly(NOTHING, Finished(Start(commands), schedule));
  }

  /** With acknowledgements that find their event active, no rule has two active events. */
  lemma IsolatedOneActive(commands: map<Pid, Command>, schedule: seq<Pid>)
    requires Isolated(Start(commands), schedule) && Quiet(RunOf(Start(commands), schedule))
    requires Careful(NOTHING, Finished(Start(commands), schedule))
    ensures OneActive(RunOf(Start(commands), schedule).state.events)
  {
    hide RunOf, Finished, Run, Isolated, Quiet, Careful, OneActive;
    IsolatedIsSerial(commands, schedule);
    OneActiveAlways(Finished(Start(commands), schedule));
  }

  lemma {:induction false} FinishedPrefix(m: Shared, schedule: seq<Pid>, k: nat)
    requires k <= |schedule|
    ensures Finished(m, schedule[..k]) <= Finished(m, schedule)
  {
    if k < |schedule| {
      hide RunOf, StepOf;
      var init := schedule[..|schedule| - 1];
      FinishedPrefix(m, init, k);
      assert init[..k] == schedule[..k];
      assert Finished(m, init) <= Finished(m, schedule);
    } else {
      assert schedule[..k] == schedule;
    }
  }

  /** An event found acknowledged or resolved at a quiet moment is never notified of again. */
  lemma IsolatedSilence(commands: map<Pid, Command>, schedule: seq<Pid>, k: nat, e: nat)
    requires Isolated(Start(commands), schedule) && k <= |schedule|
    requires Quiet(RunOf(Start(commands), schedule[..k])) && Quiet(RunOf(Start(commands), schedule))
    requires e < |RunOf(Start(commands), schedule[..k]).state.events|
    requires RunOf(Start(commands), schedule[..k]).state.events[e].status != Firing
    ensures var s, t := RunOf(Start(commands), schedule[..k]).state, RunOf(Start(commands), schedule).state;
            && e < |t.events| && t.events[e].status != Firing && t.events[e].count == s.events[e].count
            && |s.deliveries| <= |t.deliveries| && t.deliveries[..|s.deliveries|] == s.deliveries
            && forall i | |s.deliveries| <= i < |t.deliveries| :: t.deliveries[i].event != Some(e)
  {
    var m := Start(commands);
    IsolatedPrefix(m, schedule, k);
    FinishedPrefix(m, schedule, k);
    var early, all := Finished(m, schedule[..k]), Finished(m, schedule);
    hide RunOf, Finished, Run, Isolated, Quiet, Start;
    IsolatedIsSerial(commands, schedule[..k]);
    IsolatedIsSerial(commands, schedule);
    SilentAfter(early, all, e);
  }

  lemma SilentAfter(early: seq<Command>, all: seq<Command>, e: nat)
    requires early <= all && e < |Run(NOTHING, early).events| && Run(NOTHING, early).events[e].status != Firing
    ensures var s, t := Run(NOTHING, early), Run(NOTHING, all);
            && e < |t.events| && t.events[e].status != Firing && t.events[e].count == s.events[e].count
            && |s.deliveries| <= |t.deliveries| && t.deliveries[..|s.deliveries|] == s.deliveries
            && forall i | |s.deliveries| <= i < |t.deliveries| :: t.deliveries[i].event != Some(e)
  {
    hide Run;
    assert all == early + all[|early|..];
    RunAppend(NOTHING, early, all[|early|..]);
    NoDeliveryAfterAcknowledgement(Run(NOTHING, early), all[|early|..], e);
  }

  lemma IsolatedPrefix(m: Shared, schedule: seq<Pid>, k: nat)
    requires Isolated(m, schedule) && k <= |schedule|
    ensures Isolated(m, schedule[..k])
  {
    hide RunOf, Apart;
    assert forall i | 0 <= i < k :: schedule[..k][..i] == schedule[..i] && schedule[..k][i] == schedule[i];
  }

  // ----- When an acknowledgement stands, in any schedule

  /** An evaluation that has read the event as firing, is due to notify or has notified, and
      will deliver for it or write it back. */
  predicate Threat(m: Shared, e: nat, p: Pid) {
    && p in m.procs && m.procs[p].command.Tick?
    && var c := m.procs[p].command;
       match m.procs[p].pc
       case Seen(found) =>
         Polled(c) && Notifies(c, found) && found.Some? && found.value.index == e && (c.delivered > 0 || c.stored)
       case Told(found, _) => found.Some? && found.value.index == e && found.value.seen.status.Firing? && c.stored
       case _ => false
  }

  /** Since `m` nothing was delivered for the event and it does not fire. */
  ghost predicate Silent(m: Shared, t: Shared, e: nat) {
    && e < |t.state.events| && t.state.events[e].status != Firing
    && |m.state.deliveries| <= |t.state.deliveries|
    && forall i | |m.state.deliveries| <= i < |t.state.deliveries| :: t.state.deliveries[i].event != Some(e)
  }

  ghost predicate Unthreatened(m: Shared, e: nat) {
    forall p :: !Threat(m, e, p)
  }

  /** No step begins or carries out a threat where there is none. */
  lemma SilentStep(m: Shared, t: Shared, e: nat, p: Pid)
    requires Silent(m, t, e) && Unthreatened(t, e)
    ensures Silent(m, StepOf(t, p), e) && Unthreatened(StepOf(t, p), e)
  {
    SilentStepState(m, t, e, p);
    UnthreatenedStep(m, t, e, p);
  }

  lemma SilentStepState(m: Shared, t: Shared, e: nat, p: Pid)
    requires Silent(m, t, e) && Unthreatened(t, e)
    ensures Silent(m, StepOf(t, p), e)
  {
    assert !Threat(t, e, p);
  }

  lemma UnthreatenedStep(m: Shared, t: Shared, e: nat, p: Pid)
    requires Silent(m, t, e) && Unthreatened(t, e)
    ensures Unthreatened(StepOf(t, p), e)
  {
    var next := StepOf(t, p);
    forall q ensures !Threat(next, e, q) {
      assert !Threat(t, e, q) && !Threat(t, e, p);
    }
  }

  lemma {:induction false} UnthreatenedRun(m: Shared, schedule: seq<Pid>, e: nat)
    requires Silent(m, m, e) && Unthreatened(m, e)
    ensures Silent(m, RunOf(m, schedule), e) && Unthreatened(RunOf(m, schedule), e)
  {
    hide StepOf, Silent, Unthreatened;
    if schedule != [] {
      UnthreatenedRun(m, schedule[..|schedule| - 1], e);
      SilentStep(m, RunOf(m, schedule[..|schedule| - 1]), e, schedule[|schedule| - 1]);
    }
  }

  /** Left alone, a threat is carried out in one or two steps. */
  lemma ThreatIsCarriedOut(m: Shared, e: nat, p: Pid) returns (schedule: seq<Pid>)
    requires e < |m.state.events| && Threat(m, e, p)
    ensures !Silent(m, RunOf(m, schedule), e)
  {
    schedule := [p];
    assert [p][..0] == [];
    var next := StepOf(m, p);
    assert RunOf(m, [p]) == next;
    if m.procs[p].pc.Seen? {
      if m.procs[p].command.delivered > 0 {
        assert next.state.deliveries[|m.state.deliveries|].event == Some(e);
      } else {
        schedule := [p, p];
        assert [p, p][..1] == [p];
        assert next.procs[p].pc == Told(m.procs[p].pc.found, None);
        assert RunOf(m, [p, p]) == StepOf(next, p);
      }
    }
  }

  /** In whatever schedule follows, nothing is delivered for an acknowledged or resolved event
      and it does not fire again, if and only if no evaluation is under way that has read
      this event as firing and will yet deliver for it or write it back. */
  lemma SilenceExactly(m: Shared, e: nat)
    requires e < |m.state.events| && m.state.events[e].status != Firing
    ensures (forall schedule :: Silent(m, RunOf(m, schedule), e)) <==> (forall p :: !Threat(m, e, p))
  {
    if forall p :: !Threat(m, e, p) {
      forall schedule ensures Silent(m, RunOf(m, schedule), e) {
        UnthreatenedRun(m, schedule, e);
      }
    }
    if p :| Threat(m, e, p) {
      var schedule := ThreatIsCarriedOut(m, e, p);
    }
  }

  /** A threat comes from this event's own rule: evaluations of other rules never disturb an
      acknowledgement. */
  lemma ThreatIsOfItsRule(commands: map<Pid, Command>, schedule: seq<Pid>, e: nat, p: Pid)
    requires Threat(RunOf(Start(commands), schedule), e, p)
    ensures var m := RunOf(Start(commands), schedule);
            e < |m.state.events| && m.procs[p].command.rule.id == m.state.events[e].rule
  {
    hide RunOf;
    OwnRules(commands, schedule);
    assert OfItsRule(RunOf(Start(commands), schedule), p);
  }

  /** What a process has read is a record of its own rule or event, still of that rule. */
  ghost predicate OfItsRule(m: Shared, p: Pid)
    requires p in m.procs
  {
    var found := match m.procs[p].pc case Seen(f) => f case Told(f, _) => f case _ => None;
    found.Some? ==>
      && found.value.index < |m.state.events| && found.value.seen.rule == m.state.events[found.value.index].rule
      && (m.procs[p].command.Tick? ==> found.value.seen.rule == m.procs[p].command.rule.id)
  }

  ghost predicate AllOfTheirRules(m: Shared) {
    forall p | p in m.procs :: OfItsRule(m, p)
  }

  lemma RulesStay(m: Shared, p: Pid)
    requires AllOfTheirRules(m)
    ensures var t := StepOf(m, p);
            && |m.state.events| <= |t.state.events|
            && forall i | 0 <= i < |m.state.events| :: t.state.events[i].rule == m.state.events[i].rule
  {
    if p in m.procs {
      assert OfItsRule(m, p);
    }
  }

  lemma OwnStep(m: Shared, p: Pid)
    requires AllOfTheirRules(m) && p in m.procs
    ensures var t := StepOf(m, p); p in t.procs && t.procs == m.procs[p := t.procs[p]] && OfItsRule(t, p)
  {
    RulesStay(m, p);
    assert OfItsRule(m, p);
    hide AllOfTheirRules;
  }

  lemma RulesStep(m: Shared, p: Pid)
    requires AllOfTheirRules(m)
    ensures AllOfTheirRules(StepOf(m, p))
  {
    if p in m.procs {
      hide StepOf;
      RulesStay(m, p);
      OwnStep(m, p);
      var t := StepOf(m, p);
      forall q | q in t.procs ensures OfItsRule(t, q) {
        assert q != p ==> OfItsRule(m, q);
      }
    }
  }

  lemma {:induction false} OwnRules(commands: map<Pid, Command>, schedule: seq<Pid>)
    ensures AllOfTheirRules(RunOf(Start(commands), schedule))
  {
    if schedule != [] {
      hide StepOf, AllOfTheirRules;
      OwnRules(commands, schedule[..|schedule| - 1]);
      RulesStep(RunOf(Start(commands), schedule[..|schedule| - 1]), schedule[|schedule| - 1]);
    }
  }

  // ----- When counts are right, with user commands anywhere

  /** One evaluator loop: no evaluation takes a step while another is under way. */
  ghost predicate OneEvaluator(m: Shared, p: Pid) {
    p in m.procs && m.procs[p].command.Tick? ==> forall q | q in m.procs && q != p && m.procs[q].command.Tick? :: !Open(m.procs[q])
  }

  predicate SameCount(a: Event, b: Event) {
    a.count == b.count && a.lastNotified == b.lastNotified
  }

  /** A user's write finds the record not re-notified since its read, and a re-notification
      that reached somebody is stored. */
  predicate Fair(m: Shared, p: Pid) {
    p in m.procs ==>
      var c := m.procs[p].command;
      match m.procs[p].pc
      case Seen(found) =>
        !c.Tick? && found.Some? && found.value.index < |m.state.events| ==> SameCount(found.value.seen, m.state.events[found.value.index])
      case Told(found, _) => c.Tick? && found.Some? && c.delivered > 0 ==> c.stored
      case _ => true
  }

  /** An evaluation is between its notification and its write. */
  ghost predicate Announced(m: Shared, q: Pid) {
    q in m.procs && m.procs[q].command.Tick? && m.procs[q].pc.Told? && m.procs[q].pc.note.Some?
  }

  /** The state without a delivery that its evaluation has not recorded yet. */
  ghost function Base(m: Shared): State {
    if (exists q :: Announced(m, q)) && m.state.deliveries != []
    then m.state.(deliveries := m.state.deliveries[..|m.state.deliveries| - 1]) else m.state
  }

  /** Counts and spacing are right but for that delivery. */
  ghost predicate Balanced(m: Shared) {
    Honest(Base(m))
  }

  /** What an open evaluation holds: a record with the current count, and the last delivery
      if it has made one. */
  ghost predicate Holds(m: Shared, q: Proc) {
    && Polled(q.command) && Open(q)
    && (q.pc.found.Some? ==> q.pc.found.value.index < |m.state.events| && SameCount(q.pc.found.value.seen, m.state.events[q.pc.found.value.index]))
    && (q.pc.Told? ==>
          && Notifies(q.command, q.pc.found) && (q.pc.note.Some? <==> q.command.delivered > 0)
          && (q.pc.note.Some? ==>
                && m.state.deliveries != [] && q.pc.note.value == |m.state.deliveries| - 1
                && m.state.deliveries[|m.state.deliveries| - 1] == Delivery(Index(q.pc.found), q.command.now, q.command.delivered)))
  }

  ghost predicate InOrder(m: Shared) {
    && (forall p | p in m.procs && Open(m.procs[p]) :: if m.procs[p].command.Tick? then Holds(m, m.procs[p]) else UserHolds(m, m.procs[p]))
    && (forall p, q | p in m.procs && q in m.procs && m.procs[p].command.Tick? && m.procs[q].command.Tick? ::
          Open(m.procs[p]) && Open(m.procs[q]) ==> p == q)
  }

  ghost predicate UserHolds(m: Shared, q: Proc) {
    q.pc.Seen? && q.pc.found.Some? && q.pc.found.value.index < |m.state.events|
  }

  /** Only count and last notification matter for honesty. */
  lemma StatusIsFree(s: State, index: nat, e: Event)
    requires index < |s.events| && Honest(s)
    ensures Honest(s.(events := s.events[index := e])) <==> SameCount(e, s.events[index])
  {
    hide TargetsFor, LastFor, Spaced;
    var t := s.(events := s.events[index := e]);
    assert Recorded(s, index) && (Recorded(t, index) <==> SameCount(e, s.events[index]));
    forall i | 0 <= i < |t.events| && i != index ensures Recorded(t, i) {
      assert Recorded(s, i);
    }
  }

  /** Nobody has announced anything when the evaluation that could is `p` and has not. */
  lemma NotAnnounced(m: Shared, p: Pid)
    requires InOrder(m) && p in m.procs && m.procs[p].command.Tick? && OneEvaluator(m, p) && !Announced(m, p)
    ensures Base(m) == m.state && forall q :: !Announced(m, q)
  {
    forall q ensures !Announced(m, q) {
      assert q in m.procs && m.procs[q].pc.Told? ==> Open(m.procs[q]);
    }
  }

  lemma BaseOfAnnounced(m: Shared, p: Pid)
    requires Announced(m, p) && m.state.deliveries != []
    ensures Base(m) == m.state.(deliveries := m.state.deliveries[..|m.state.deliveries| - 1])
  {
  }

  lemma BaseWithoutAnnounced(m: Shared)
    requires forall q :: !Announced(m, q)
    ensures Base(m) == m.state
  {
  }

  /** A step of a user command. */
  lemma FairUserStep(m: Shared, p: Pid)
    requires InOrder(m) && Balanced(m) && p in m.procs && !m.procs[p].command.Tick?
    ensures Balanced(StepOf(m, p)) <==> Fair(m, p)
    ensures Fair(m, p) ==> InOrder(StepOf(m, p))
  {
    hide Honest;
    var t := StepOf(m, p);
    forall q ensures Announced(t, q) <==> Announced(m, q) {
    }
    assert Base(t) == Base(m).(events := t.state.events);
    if m.procs[p].pc.Seen? {
      assert UserHolds(m, m.procs[p]);
      var found := m.procs[p].pc.found.value;
      StatusIsFree(Base(m), found.index, found.seen.(status := UserStatus(m.procs[p].command)));
    } else {
      assert t.state == m.state;
    }
    if Fair(m, p) {
      forall q | q in t.procs && Open(t.procs[q])
        ensures if t.procs[q].command.Tick? then Holds(t, t.procs[q]) else UserHolds(t, t.procs[q])
      {
        assert q != p ==> Open(m.procs[q]) && t.procs[q] == m.procs[q];
      }
    }
  }

  /** An evaluation's read, and its step after that. */
  lemma FairEvaluationStep(m: Shared, p: Pid)
    requires InOrder(m) && Balanced(m) && OneEvaluator(m, p) && p in m.procs && m.procs[p].command.Tick? && !m.procs[p].pc.Told?
    ensures Balanced(StepOf(m, p)) && Fair(m, p) && InOrder(StepOf(m, p))
  {
    hide Honest;
    NotAnnounced(m, p);
    var t := StepOf(m, p);
    forall q ensures Announced(t, q) ==> q == p && t.procs[p].pc.note.Some? {
      assert !Announced(m, q);
    }
    if m.procs[p].pc.Seen? {
      var c, found := m.procs[p].command, m.procs[p].pc.found;
      assert Holds(m, m.procs[p]);
      if Notifies(c, found) {
        if c.delivered > 0 {
          assert Announced(t, p);
          BaseOfAnnounced(t, p);
          assert Base(t) == m.state;
        } else {
          BaseWithoutAnnounced(t);
        }
      } else {
        BaseWithoutAnnounced(t);
        if found.Some? {
          StatusIsFree(m.state, found.value.index, found.value.seen.(status := Resolved));
        }
      }
    } else {
      BaseWithoutAnnounced(t);
    }
    OrderAfterEvaluation(m, p);
  }

  lemma OrderAfterEvaluation(m: Shared, p: Pid)
    requires InOrder(m) && OneEvaluator(m, p) && p in m.procs && m.procs[p].command.Tick?
    ensures InOrder(StepOf(m, p))
  {
    var t := StepOf(m, p);
    assert Open(m.procs[p]) ==> Holds(m, m.procs[p]);
    forall q | q in t.procs && Open(t.procs[q])
      ensures if t.procs[q].command.Tick? then Holds(t, t.procs[q]) else UserHolds(t, t.procs[q])
    {
      assert q != p ==> t.procs[q] == m.procs[q] && Open(m.procs[q]);
    }
    forall q, r | q in t.procs && r in t.procs && t.procs[q].command.Tick? && t.procs[r].command.Tick? && Open(t.procs[q]) && Open(t.procs[r])
      ensures q == r
    {
    }
  }

  /** An evaluation's write after a notification. */
  lemma FairRecordStep(m: Shared, p: Pid)
    requires InOrder(m) && Balanced(m) && OneEvaluator(m, p) && p in m.procs && m.procs[p].command.Tick? && m.procs[p].pc.Told?
    ensures Balanced(StepOf(m, p)) <==> Fair(m, p)
    ensures InOrder(StepOf(m, p))
  {
    hide Honest, TargetsFor, LastFor;
    OrderAfterEvaluation(m, p);
    assert Holds(m, m.procs[p]);
    var t := StepOf(m, p);
    forall q ensures !Announced(t, q) {
      assert Announced(t, q) ==> Announced(m, q);
    }
    BaseWithoutAnnounced(t);
    if m.procs[p].command.delivered > 0 {
      BaseOfAnnounced(m, p);
      RecordExactly(Base(m), m, p);
    } else {
      NotAnnounced(m, p);
      RecordsNothing(m, p);
    }
  }

  lemma RecordsNothing(m: Shared, p: Pid)
    requires p in m.procs && m.procs[p].command.Tick? && m.procs[p].pc.Told? && Holds(m, m.procs[p])
    requires m.procs[p].command.delivered == 0 && Honest(m.state)
    ensures Honest(StepOf(m, p).state)
  {
    hide Honest;
    var c, found := m.procs[p].command, m.procs[p].pc.found;
    if found.Some? {
      StatusIsFree(m.state, found.value.index, found.value.seen);
    } else {
      FireKeepsHonest(m.state, c.rule.id, c.now, 0);
    }
  }

  lemma RecordExactly(s: State, m: Shared, p: Pid)
    requires p in m.procs && m.procs[p].command.Tick? && m.procs[p].pc.Told? && Holds(m, m.procs[p]) && m.procs[p].command.delivered > 0
    requires Honest(s) && m.state.events == s.events && s.deliveries == m.state.deliveries[..|m.state.deliveries| - 1]
    ensures Honest(StepOf(m, p).state) <==> Fair(m, p)
  {
    hide Honest;
    var c, found := m.procs[p].command, m.procs[p].pc.found;
    var d := Delivery(Index(found), c.now, c.delivered);
    assert m.state.deliveries == s.deliveries + [d];
    if found.None? {
      FireKeepsHonest(s, c.rule.id, c.now, c.delivered);
      UnstoredFiringKeepsHonest(s, c.now, c.delivered);
      assert (s.deliveries + [d])[|s.deliveries| := d.(event := Some(|s.events|))] == s.deliveries + [d.(event := Some(|s.events|))];
    } else {
      var i := found.value.index;
      RenotifyKeepsHonest(s, i, c.now, c.delivered);
      var renotified := Notified(s, Some(i), c.now, c.delivered).(events := s.events[i := Renotified(s.events[i], c.now, c.delivered)]);
      StatusIsFree(renotified, i, Renotified(found.value.seen, c.now, c.delivered));
      StatusIsFree(renotified, i, s.events[i]);
      assert renotified.(events := renotified.events[i := s.events[i]]) == m.state;
      assert renotified.(events := renotified.events[i := Renotified(found.value.seen, c.now, c.delivered)])
             == m.state.(events := m.state.events[i := Renotified(found.value.seen, c.now, c.delivered)]);
    }
  }

  lemma FairStep(m: Shared, p: Pid)
    requires InOrder(m) && Balanced(m) && OneEvaluator(m, p)
    ensures Balanced(StepOf(m, p)) <==> Fair(m, p)
    ensures Fair(m, p) ==> InOrder(StepOf(m, p))
  {
    hide InOrder, Balanced, OneEvaluator;
    if p in m.procs {
      if !m.procs[p].command.Tick? {
        FairUserStep(m, p);
      } else if m.procs[p].pc.Told? {
        FairRecordStep(m, p);
      } else {
        FairEvaluationStep(m, p);
      }
    }
  }

  ghost predicate AlwaysBalanced(m: Shared, schedule: seq<Pid>) {
    forall k | 0 <= k <= |schedule| :: Balanced(RunOf(m, schedule[..k]))
  }

  ghost predicate AlwaysFair(m: Shared, schedule: seq<Pid>) {
    forall k | 0 <= k < |schedule| :: Fair(RunOf(m, schedule[..k]), schedule[k])
  }

  ghost predicate Loop(m: Shared, schedule: seq<Pid>) {
    forall k | 0 <= k < |schedule| :: OneEvaluator(RunOf(m, schedule[..k]), schedule[k])
  }

  lemma PrefixesOf(m: Shared, schedule: seq<Pid>)
    requires schedule != []
    ensures var init, last := schedule[..|schedule| - 1], schedule[|schedule| - 1];
            && (AlwaysBalanced(m, schedule) <==> AlwaysBalanced(m, init) && Balanced(RunOf(m, schedule)))
            && (AlwaysFair(m, schedule) <==> AlwaysFair(m, init) && Fair(RunOf(m, init), last))
            && (Loop(m, schedule) <==> Loop(m, init) && OneEvaluator(RunOf(m, init), last))
  {
    hide RunOf, Balanced, Fair, OneEvaluator;
    var init := schedule[..|schedule| - 1];
    assert forall k | 0 <= k <= |init| :: init[..k] == schedule[..k];
    assert schedule[..|schedule|] == schedule;
  }

  lemma {:induction false} BalancedRun(m: Shared, schedule: seq<Pid>)
    requires InOrder(m) && Balanced(m) && Loop(m, schedule)
    ensures AlwaysBalanced(m, schedule) <==> AlwaysFair(m, schedule)
    ensures AlwaysFair(m, schedule) ==> InOrder(RunOf(m, schedule)) && Balanced(RunOf(m, schedule))
  {
    hide StepOf, InOrder, Balanced, Fair, Loop, AlwaysFair, AlwaysBalanced, OneEvaluator;
    if schedule == [] {
      NothingRun(m);
    } else {
      var init, last := schedule[..|schedule| - 1], schedule[|schedule| - 1];
      PrefixesOf(m, schedule);
      BalancedRun(m, init);
      if AlwaysFair(m, init) {
        FairStep(RunOf(m, init), last);
      }
    }
  }

  lemma NothingRun(m: Shared)
    requires Balanced(m)
    ensures AlwaysBalanced(m, []) && AlwaysFair(m, [])
  {
    hide Balanced, Fair;
    assert RunOf(m, []) == m;
  }

  /** With one evaluator and user commands anywhere, counts and spacing are right at every
      moment of exactly the schedules in which every user's write finds its record not
      re-notified since it was read, and every re-notification is stored. */
  lemma CountsAreRightExactly(commands: map<Pid, Command>, schedule: seq<Pid>)
    requires Loop(Start(commands), schedule)
    ensures AlwaysBalanced(Start(commands), schedule) <==> AlwaysFair(Start(commands), schedule)
  {
    var m := Start(commands);
    assert InOrder(m);
    assert Base(m) == NOTHING && Balanced(m);
    hide InOrder, Balanced, Loop, AlwaysFair, AlwaysBalanced;
    BalancedRun(m, schedule);
  }

  // ----- And what goes wrong in others

  /** A user's write keeps count and spacing exactly if nobody notified since its read. */
  lemma UserWriteKeepsCountExactly(m: Shared, p: Pid)
    requires p in m.procs && !m.procs[p].command.Tick? && m.procs[p].pc.Seen? && m.procs[p].pc.found.Some? && Honest(m.state)
    requires m.procs[p].pc.found.value.index < |m.state.events|
    ensures var found := m.procs[p].pc.found.value;
            Honest(StepOf(m, p).state) <==>
            found.seen.count == m.state.events[found.index].count && found.seen.lastNotified == m.state.events[found.index].lastNotified
  {
    hide Honest;
    var found := m.procs[p].pc.found.value;
    StatusIsFree(m.state, found.index, found.seen.(status := UserStatus(m.procs[p].command)));
  }

  function Breach(now: Time): Command {
    Tick(Rule(1, "cpu", ">", 0.0), Some(1.0), now, 1, true)
  }

  const TWO_BREACHES: map<Pid, Command> := map[0 := Breach(0), 1 := Breach(RENOTIFY), 2 := Acknowledge(0)]

  const FIRED := Event(1, Firing, 0, Some(0), 1)

  /** The first evaluation alone: one event, firing, with one delivery. */
  lemma FirstFires(commands: map<Pid, Command>)
    requires 0 in commands && commands[0] == Breach(0)
    ensures var m := RunOf(Start(commands), [0, 0, 0]);
            && m.state == State([FIRED], [Delivery(Some(0), 0, 1)])
            && m.procs == Start(commands).procs[0 := Proc(Breach(0), Ended)]
  {
    var m0 := Start(commands);
    Three(m0, 0, 0, 0);
    var m1 := StepOf(m0, 0);
    assert m1.procs[0] == Proc(Breach(0), Seen(None)) && m1.state == NOTHING;
    var m2 := StepOf(m1, 0);
    assert m2.procs[0] == Proc(Breach(0), Told(None, Some(0))) && m2.state == State([], [Delivery(None, 0, 1)]);
    var m3 := StepOf(m2, 0);
    assert m3.state.deliveries == [Delivery(Some(0), 0, 1)];
    assert m3.procs == m0.procs[0 := Proc(Breach(0), Ended)];
  }

  lemma Three(m: Shared, p: Pid, q: Pid, r: Pid)
    ensures RunOf(m, [p, q, r]) == StepOf(StepOf(StepOf(m, p), q), r)
  {
    hide StepOf;
    assert [p, q, r][..2] == [p, q] && [p, q][..1] == [p] && [p][..0] == [];
    assert RunOf(m, [p]) == StepOf(RunOf(m, []), p);
    assert RunOf(m, [p, q]) == StepOf(RunOf(m, [p]), q);
  }

  lemma {:induction false} RunOfAppend(m: Shared, a: seq<Pid>, b: seq<Pid>)
    ensures RunOf(m, a + b) == RunOf(RunOf(m, a), b)
  {
    hide StepOf;
    if b == [] {
      assert a + b == a;
    } else {
      RunOfAppend(m, a, b[..|b| - 1]);
      assert (a + b)[..|a + b| - 1] == a + b[..|b| - 1];
    }
  }

  /** An acknowledgement between an evaluation's read and its write is followed by a delivery
      and erased: the event is firing again. */
  lemma AcknowledgementIsLost()
    ensures var acknowledged := RunOf(Start(TWO_BREACHES), [0, 0, 0] + [1, 2, 2]);
            |acknowledged.state.events| == 1 && acknowledged.state.events[0].status == Acknowledged && |acknowledged.state.deliveries| == 1
    ensures var after := RunOf(Start(TWO_BREACHES), ([0, 0, 0] + [1, 2, 2]) + [1, 1, 1]);
            && |after.state.events| == 1 && after.state.events[0].status == Firing
            && after.state.deliveries == [Delivery(Some(0), 0, 1), Delivery(Some(0), RENOTIFY, 1)]
  {
    var m := RunOf(Start(TWO_BREACHES), [0, 0, 0]);
    FirstFires(TWO_BREACHES);
    RunOfAppend(Start(TWO_BREACHES), [0, 0, 0], [1, 2, 2]);
    RunOfAppend(Start(TWO_BREACHES), [0, 0, 0] + [1, 2, 2], [1, 1, 1]);
    Three(m, 1, 2, 2);
    var read := StepOf(m, 1);
    FiredIsActive();
    assert read.procs[1] == Proc(Breach(RENOTIFY), Seen(Some(Found(0, FIRED))));
    var looked := StepOf(read, 2);
    var acknowledged := StepOf(looked, 2);
    assert acknowledged.state.events == [FIRED.(status := Acknowledged)];
    Three(acknowledged, 1, 1, 1);
    var told := StepOf(acknowledged, 1);
    assert told.state.deliveries == [Delivery(Some(0), 0, 1), Delivery(Some(0), RENOTIFY, 1)];
    var written := StepOf(told, 1);
    assert written.state.events == [Event(1, Firing, 0, Some(RENOTIFY), 2)];
  }

  lemma FiredIsActive()
    ensures ActiveEvent([FIRED], 1) == Some(0)
  {
  }

  /** A stale acknowledgement takes back a re-notification's count and time. */
  lemma StaleAcknowledgementRollsBack()
    ensures var after := RunOf(Start(TWO_BREACHES), ([0, 0, 0] + [2, 1, 1]) + [1, 2, 2]);
            && |after.state.events| == 1 && after.state.events[0].count == 1 && |after.state.deliveries| == 2 && !Honest(after.state)
  {
    var m := RunOf(Start(TWO_BREACHES), [0, 0, 0]);
    FirstFires(TWO_BREACHES);
    RunOfAppend(Start(TWO_BREACHES), [0, 0, 0], [2, 1, 1]);
    RunOfAppend(Start(TWO_BREACHES), [0, 0, 0] + [2, 1, 1], [1, 2, 2]);
    Three(m, 2, 1, 1);
    FiredIsActive();
    var looked := StepOf(m, 2);
    assert looked.procs[2] == Proc(Acknowledge(0), Seen(Some(Found(0, FIRED))));
    var read := StepOf(looked, 1);
    var told := StepOf(read, 1);
    assert told.state.deliveries == [Delivery(Some(0), 0, 1), Delivery(Some(0), RENOTIFY, 1)];
    Three(told, 1, 2, 2);
    var written := StepOf(told, 1);
    assert written.state.events == [Event(1, Firing, 0, Some(RENOTIFY), 2)];
    var after := StepOf(written, 2);
    assert after.state.events == [FIRED.(status := Acknowledged)];
    assert StepOf(after, 2) == after;
    TwoTargets();
    assert !Recorded(after.state, 0);
  }

  lemma TwoTargets()
    ensures TargetsFor([Delivery(Some(0), 0, 1), Delivery(Some(0), RENOTIFY, 1)], 0) == 2
  {
    var one, two := Delivery(Some(0), 0, 1), Delivery(Some(0), RENOTIFY, 1);
    assert [one, two][..1] == [one] && [one][..0] == [];
    assert TargetsFor([one], 0) == 1;
  }
}
