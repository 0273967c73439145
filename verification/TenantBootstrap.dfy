/** Provisioning of a tenant's default storage in front of every request: one call of
    EnsureDefault per tenant at a time, shared by all concurrent requests, and a cache of
    the tenants that are done. A state is what the callers share plus where each of them
    stands; every step is one caller's next atomic action. */
module TenantBootstrap {
  import opened Basics
  import opened Text

  type Tenant = string
  type Pid = nat

  datatype Reply = Fine | Failed(error: string)

  /** `returned` is what EnsureDefault answered the leader; `err` is the field the waiters
      read, which starts out as no error; `closes` counts the closing of the channel. */
  datatype Attempt = Attempt(tenant: Tenant, leader: Pid, returned: Option<Reply>, err: Reply, closes: nat)

  datatype Pc =
    | Arrived
    | Checking
    | Locking
    | Waiting(attempt: nat)
    | Running(attempt: nat)
    | Storing(attempt: nat)
    | Publishing(attempt: nat, reply: Reply)
    | Marking
    | Passed
    | GaveUp
    | Rejected(attempt: nat, error: string)

  datatype Caller = Caller(authenticated: bool, tenant: Tenant, pc: Pc)

  datatype State = State(ready: set<Tenant>, inFlight: map<Tenant, nat>, attempts: seq<Attempt>, callers: map<Pid, Caller>)

  datatype Choice = Arrive(authenticated: bool, tenant: Tenant) | Go | Answer(reply: Reply) | Expire

  const INITIAL := State({}, map[], [], map[])

  function At(s: State, p: Pid, pc: Pc): State
    requires p in s.callers
  {
    s.(callers := s.callers[p := s.callers[p].(pc := pc)])
  }

  /** The critical section that joins an attempt or opens a new one. */
  function Join(s: State, p: Pid): State
    requires p in s.callers
  {
    var t := s.callers[p].tenant;
    if t in s.ready then At(s, p, Marking)
    else if t in s.inFlight then At(s, p, Waiting(s.inFlight[t]))
    else
      var a := |s.attempts|;
      At(s, p, Running(a)).(inFlight := s.inFlight[t := a], attempts := s.attempts + [Attempt(t, p, None, Fine, 0)])
  }

  function Return(s: State, p: Pid, a: nat, reply: Reply): State
    requires p in s.callers && a < |s.attempts|
  {
    At(s, p, if reply.Fine? then Storing(a) else Publishing(a, reply))
      .(attempts := s.attempts[a := s.attempts[a].(returned := Some(reply))])
  }

  /** The critical section that publishes the result and ends the attempt. */
  function Publish(s: State, p: Pid, a: nat, reply: Reply): State
    requires p in s.callers && a < |s.attempts|
  {
    At(s, p, if reply.Fine? then Marking else Rejected(a, reply.error))
      .(attempts := s.attempts[a := s.attempts[a].(err := reply, closes := s.attempts[a].closes + 1)],
        inFlight := s.inFlight - {s.callers[p].tenant})
  }

  /** One step of caller `p`; a step that is not possible changes nothing. */
  function Step(s: State, p: Pid, choice: Choice): State {
    if p !in s.callers then
      if choice.Arrive? then s.(callers := s.callers[p := Caller(choice.authenticated, Trim(choice.tenant), Arrived)]) else s
    else
      var c := s.callers[p];
      match c.pc
      case Arrived => At(s, p, if !c.authenticated || c.tenant == "" || c.tenant in s.ready then Passed else Checking)
      case Checking => At(s, p, if c.tenant in s.ready then Marking else Locking)
      case Locking => Join(s, p)
      case Waiting(a) =>
        if choice.Expire? then At(s, p, GaveUp)
        else if a < |s.attempts| && s.attempts[a].closes > 0 then
          At(s, p, if s.attempts[a].err.Fine? then Marking else Rejected(a, s.attempts[a].err.error))
        else s
      case Running(a) => if choice.Answer? && a < |s.attempts| then Return(s, p, a, choice.reply) else s
      case Storing(a) => At(s, p, Publishing(a, Fine)).(ready := s.ready + {c.tenant})
      case Publishing(a, reply) => if a < |s.attempts| then Publish(s, p, a, reply) else s
      case Marking => At(s, p, Passed).(ready := s.ready + {c.tenant})
      case _ => s
  }

  function Run(s: State, schedule: seq<(Pid, Choice)>): State {
    if schedule == [] then s
    else
      var n := |schedule| - 1;
      Step(Run(s, schedule[..n]), schedule[n].0, schedule[n].1)
  }

  // ----- The invariant

  ghost predicate Succeeded(s: State, t: Tenant) {
    exists a :: 0 <= a < |s.attempts| && s.attempts[a].tenant == t && s.attempts[a].returned == Some(Fine)
  }

  predicate LeadsPc(pc: Pc, a: nat) {
    (pc.Running? || pc.Storing? || pc.Publishing?) && pc.attempt == a
  }

  ghost predicate Leads(s: State, p: Pid, c: Caller, a: nat) {
    && a < |s.attempts| && s.attempts[a].tenant == c.tenant && s.attempts[a].leader == p && s.attempts[a].closes == 0
    && c.tenant in s.inFlight && s.inFlight[c.tenant] == a
  }

  ghost predicate CallerOk(s: State, p: Pid, c: Caller) {
    match c.pc
    case Waiting(a) =>
      a < |s.attempts| && s.attempts[a].tenant == c.tenant && (s.attempts[a].closes == 0 ==> c.tenant in s.inFlight && s.inFlight[c.tenant] == a)
    case Running(a) => Leads(s, p, c, a) && s.attempts[a].returned == None
    case Storing(a) => Leads(s, p, c, a) && s.attempts[a].returned == Some(Fine)
    case Publishing(a, reply) => Leads(s, p, c, a) && s.attempts[a].returned == Some(reply) && (reply.Fine? ==> c.tenant in s.ready)
    case Marking => Succeeded(s, c.tenant)
    case Passed => c.authenticated && c.tenant != "" ==> Succeeded(s, c.tenant)
    case Rejected(a, error) => a < |s.attempts| && s.attempts[a].tenant == c.tenant && s.attempts[a].returned == Some(Failed(error))
    case _ => true
  }

  ghost predicate AttemptOk(s: State, a: nat, attempt: Attempt) {
    if attempt.closes == 0 then
      && attempt.tenant in s.inFlight && s.inFlight[attempt.tenant] == a
      && attempt.leader in s.callers && LeadsPc(s.callers[attempt.leader].pc, a)
    else
      && attempt.closes == 1 && attempt.returned == Some(attempt.err) && (attempt.err.Fine? ==> attempt.tenant in s.ready)
      && (attempt.tenant in s.inFlight ==> s.inFlight[attempt.tenant] != a)
  }

  /** Attempts for one tenant follow one another, each but the last a failure that was
      over before the next began. */
  ghost predicate Serial(attempts: seq<Attempt>) {
    forall a, b | 0 <= a < b < |attempts| && attempts[a].tenant == attempts[b].tenant ::
      attempts[a].closes == 1 && attempts[a].returned.Some? && attempts[a].returned.value.Failed?
  }

  ghost predicate Valid(s: State) {
    && (forall p | p in s.callers :: CallerOk(s, p, s.callers[p]))
    && (forall a | 0 <= a < |s.attempts| :: AttemptOk(s, a, s.attempts[a]))
    && (forall t | t in s.inFlight :: s.inFlight[t] < |s.attempts| && s.attempts[s.inFlight[t]].tenant == t)
    && (forall t | t in s.ready :: Succeeded(s, t))
    && Serial(s.attempts)
  }

  // ----- Each kind of step keeps it

  lemma MoveKeepsValid(s: State, p: Pid, c: Caller)
    requires Valid(s) && CallerOk(s, p, c)
    requires p in s.callers ==> forall a :: LeadsPc(s.callers[p].pc, a) ==> LeadsPc(c.pc, a)
    ensures Valid(s.(callers := s.callers[p := c]))
  {
    var s' := s.(callers := s.callers[p := c]);
    assert forall t | Succeeded(s, t) :: Succeeded(s', t);
    forall q | q in s'.callers ensures CallerOk(s', q, s'.callers[q]) {
      assert q != p ==> CallerOk(s, q, s.callers[q]);
    }
  }

  lemma ReadyKeepsValid(s: State, t: Tenant)
    requires Valid(s) && Succeeded(s, t)
    ensures Valid(s.(ready := s.ready + {t}))
  {
    var s' := s.(ready := s.ready + {t});
    assert forall u | Succeeded(s, u) :: Succeeded(s', u);
    forall q | q in s'.callers ensures CallerOk(s', q, s'.callers[q]) {
      assert CallerOk(s, q, s.callers[q]);
    }
  }

  lemma BeginKeepsCallers(s: State, p: Pid)
    requires Valid(s) && p in s.callers && s.callers[p].pc.Locking?
    requires s.callers[p].tenant !in s.ready && s.callers[p].tenant !in s.inFlight
    ensures var s' := Join(s, p);
            (forall q | q in s'.callers :: CallerOk(s', q, s'.callers[q])) && (forall t | Succeeded(s, t) :: Succeeded(s', t))
  {
    hide Serial, AttemptOk;
    var s' := Join(s, p);
    forall t | Succeeded(s, t) ensures Succeeded(s', t) {
      var a :| 0 <= a < |s.attempts| && s.attempts[a].tenant == t && s.attempts[a].returned == Some(Fine);
      assert s'.attempts[a] == s.attempts[a];
    }
    forall q | q in s'.callers ensures CallerOk(s', q, s'.callers[q]) {
      assert q != p ==> CallerOk(s, q, s.callers[q]);
    }
  }

  lemma BeginKeepsAttempts(s: State, p: Pid)
    requires Valid(s) && p in s.callers && s.callers[p].pc.Locking?
    requires s.callers[p].tenant !in s.ready && s.callers[p].tenant !in s.inFlight
    ensures var s' := Join(s, p);
            && (forall a | 0 <= a < |s'.attempts| :: AttemptOk(s', a, s'.attempts[a])) && Serial(s'.attempts)
            && (forall t | t in s'.inFlight :: s'.inFlight[t] < |s'.attempts| && s'.attempts[s'.inFlight[t]].tenant == t)
  {
    hide Succeeded, CallerOk;
    var s' := Join(s, p);
    forall a | 0 <= a < |s'.attempts| ensures AttemptOk(s', a, s'.attempts[a]) {
      assert a < |s.attempts| ==> AttemptOk(s, a, s.attempts[a]);
    }
    forall a | 0 <= a < |s.attempts| && s.attempts[a].tenant == s.callers[p].tenant
      ensures s.attempts[a].closes == 1 && s.attempts[a].returned.Some? && s.attempts[a].returned.value.Failed?
    {
      assert AttemptOk(s, a, s.attempts[a]);
    }
  }

  lemma BeginKeepsValid(s: State, p: Pid)
    requires Valid(s) && p in s.callers && s.callers[p].pc.Locking?
    requires s.callers[p].tenant !in s.ready && s.callers[p].tenant !in s.inFlight
    ensures Valid(Join(s, p))
  {
    BeginKeepsCallers(s, p);
    BeginKeepsAttempts(s, p);
    hide CallerOk, AttemptOk, Serial, Succeeded;
  }

  lemma ReturnKeepsCallers(s: State, p: Pid, a: nat, reply: Reply)
    requires Valid(s) && p in s.callers && s.callers[p].pc == Running(a) && a < |s.attempts|
    ensures var s' := Return(s, p, a, reply);
            (forall q | q in s'.callers :: CallerOk(s', q, s'.callers[q])) && (forall t | Succeeded(s, t) :: Succeeded(s', t))
  {
    hide Serial, AttemptOk;
    var s' := Return(s, p, a, reply);
    assert CallerOk(s, p, s.callers[p]);
    forall t | Succeeded(s, t) ensures Succeeded(s', t) {
      var b :| 0 <= b < |s.attempts| && s.attempts[b].tenant == t && s.attempts[b].returned == Some(Fine);
      assert s'.attempts[b] == s.attempts[b];
    }
    forall q | q in s'.callers ensures CallerOk(s', q, s'.callers[q]) {
      assert q != p ==> CallerOk(s, q, s.callers[q]);
    }
  }

  lemma ReturnKeepsAttempts(s: State, p: Pid, a: nat, reply: Reply)
    requires Valid(s) && p in s.callers && s.callers[p].pc == Running(a) && a < |s.attempts|
    ensures var s' := Return(s, p, a, reply);
            (forall b | 0 <= b < |s'.attempts| :: AttemptOk(s', b, s'.attempts[b])) && Serial(s'.attempts)
  {
    hide Succeeded;
    var s' := Return(s, p, a, reply);
    assert CallerOk(s, p, s.callers[p]);
    hide CallerOk;
    forall b | 0 <= b < |s'.attempts| ensures AttemptOk(s', b, s'.attempts[b]) {
      assert AttemptOk(s, b, s.attempts[b]);
    }
  }

  lemma ReturnKeepsValid(s: State, p: Pid, a: nat, reply: Reply)
    requires Valid(s) && p in s.callers && s.callers[p].pc == Running(a) && a < |s.attempts|
    ensures Valid(Return(s, p, a, reply))
  {
    hide CallerOk, AttemptOk, Serial, Succeeded;
    ReturnKeepsCallers(s, p, a, reply);
    ReturnKeepsAttempts(s, p, a, reply);
  }

  lemma PublishKeepsCallers(s: State, p: Pid, a: nat, reply: Reply)
    requires Valid(s) && p in s.callers && s.callers[p].pc == Publishing(a, reply) && a < |s.attempts|
    ensures var s' := Publish(s, p, a, reply);
            (forall q | q in s'.callers :: CallerOk(s', q, s'.callers[q])) && (forall t | Succeeded(s, t) :: Succeeded(s', t))
  {
    hide Serial, AttemptOk;
    var s' := Publish(s, p, a, reply);
    assert CallerOk(s, p, s.callers[p]);
    forall u | Succeeded(s, u) ensures Succeeded(s', u) {
      var b :| 0 <= b < |s.attempts| && s.attempts[b].tenant == u && s.attempts[b].returned == Some(Fine);
      assert s'.attempts[b].returned == s.attempts[b].returned && s'.attempts[b].tenant == u;
    }
    forall q | q in s'.callers ensures CallerOk(s', q, s'.callers[q]) {
      assert CallerOk(s, q, s.callers[q]);
    }
  }

  lemma PublishKeepsAttempts(s: State, p: Pid, a: nat, reply: Reply)
    requires Valid(s) && p in s.callers && s.callers[p].pc == Publishing(a, reply) && a < |s.attempts|
    ensures var s' := Publish(s, p, a, reply);
            (forall b | 0 <= b < |s'.attempts| :: AttemptOk(s', b, s'.attempts[b])) && Serial(s'.attempts)
  {
    hide Succeeded;
    var s' := Publish(s, p, a, reply);
    assert CallerOk(s, p, s.callers[p]);
    hide CallerOk;
    forall b | 0 <= b < |s'.attempts| ensures AttemptOk(s', b, s'.attempts[b]) {
      assert AttemptOk(s, b, s.attempts[b]);
    }
  }

  lemma PublishKeepsValid(s: State, p: Pid, a: nat, reply: Reply)
    requires Valid(s) && p in s.callers && s.callers[p].pc == Publishing(a, reply) && a < |s.attempts|
    ensures Valid(Publish(s, p, a, reply))
  {
    hide CallerOk, AttemptOk, Serial, Succeeded;
    PublishKeepsCallers(s, p, a, reply);
    PublishKeepsAttempts(s, p, a, reply);
  }

  lemma StepKeepsValid(s: State, p: Pid, choice: Choice)
    requires Valid(s)
    ensures Valid(Step(s, p, choice))
  {
    hide Valid, Serial, AttemptOk, Succeeded;
    if p !in s.callers {
      if choice.Arrive? {
        MoveKeepsValid(s, p, Caller(choice.authenticated, Trim(choice.tenant), Arrived));
      }
    } else {
      var c := s.callers[p];
      assert CallerOk(s, p, c) && (c.tenant in s.ready ==> Succeeded(s, c.tenant)) by { ValidAt(s, p); }
      match c.pc
      case Arrived => MoveKeepsValid(s, p, Step(s, p, choice).callers[p]);
      case Checking => MoveKeepsValid(s, p, Step(s, p, choice).callers[p]);
      case Locking => JoinKeepsValid(s, p);
      case Waiting(a) => WaitKeepsValid(s, p, a, choice);
      case Running(a) => if choice.Answer? { ReturnKeepsValid(s, p, a, choice.reply); }
      case Storing(a) => ReadyStepKeepsValid(s, p, Publishing(a, Fine));
      case Publishing(a, reply) => PublishKeepsValid(s, p, a, reply);
      case Marking => ReadyStepKeepsValid(s, p, Passed);
      case _ =>
    }
  }

  lemma ValidAt(s: State, p: Pid)
    requires Valid(s) && p in s.callers
    ensures CallerOk(s, p, s.callers[p])
    ensures s.callers[p].tenant in s.ready ==> Succeeded(s, s.callers[p].tenant)
  {
  }

  /** Marking the tenant as ready, after a success, by its leader or by a later caller. */
  lemma ReadyStepKeepsValid(s: State, p: Pid, pc: Pc)
    requires Valid(s) && p in s.callers
    requires (s.callers[p].pc.Storing? && pc == Publishing(s.callers[p].pc.attempt, Fine)) || (s.callers[p].pc.Marking? && pc.Passed?)
    ensures Valid(At(s, p, pc).(ready := s.ready + {s.callers[p].tenant}))
  {
    var c := s.callers[p];
    assert CallerOk(s, p, c);
    var t := s.(ready := s.ready + {c.tenant});
    assert Succeeded(s, c.tenant) && Succeeded(t, c.tenant);
    ReadyKeepsValid(s, c.tenant);
    hide Valid, Succeeded;
    assert CallerOk(t, p, c.(pc := pc));
    MoveKeepsValid(t, p, c.(pc := pc));
    assert At(s, p, pc).(ready := t.ready) == t.(callers := t.callers[p := c.(pc := pc)]);
  }

  lemma JoinKeepsValid(s: State, p: Pid)
    requires Valid(s) && p in s.callers && s.callers[p].pc.Locking?
    ensures Valid(Join(s, p))
  {
    hide Serial, Succeeded, AttemptOk;
    var c := s.callers[p];
    if c.tenant in s.ready {
      MoveKeepsValid(s, p, c.(pc := Marking));
    } else if c.tenant in s.inFlight {
      MoveKeepsValid(s, p, c.(pc := Waiting(s.inFlight[c.tenant])));
    } else {
      BeginKeepsValid(s, p);
    }
  }

  lemma WaitKeepsValid(s: State, p: Pid, a: nat, choice: Choice)
    requires Valid(s) && p in s.callers && s.callers[p].pc == Waiting(a)
    ensures Valid(Step(s, p, choice))
  {
    hide Serial;
    var c := s.callers[p];
    assert CallerOk(s, p, c);
    assert AttemptOk(s, a, s.attempts[a]);
    if !choice.Expire? && s.attempts[a].closes > 0 {
      assert s.attempts[a].err.Fine? ==> Succeeded(s, c.tenant);
      MoveKeepsValid(s, p, Step(s, p, choice).callers[p]);
    } else if choice.Expire? {
      MoveKeepsValid(s, p, c.(pc := GaveUp));
    }
  }

  // ----- What holds in every interleaving

  lemma {:induction false} RunKeepsValid(s: State, schedule: seq<(Pid, Choice)>)
    requires Valid(s)
    ensures Valid(Run(s, schedule))
  {
    hide Valid, Step;
    if schedule != [] {
      var n := |schedule| - 1;
      RunKeepsValid(s, schedule[..n]);
      StepKeepsValid(Run(s, schedule[..n]), schedule[n].0, schedule[n].1);
    }
  }

  ghost predicate Reachable(s: State) {
    exists schedule :: s == Run(INITIAL, schedule)
  }

  lemma ReachableIsValid(s: State)
    requires Reachable(s)
    ensures Valid(s)
  {
    var schedule :| s == Run(INITIAL, schedule);
    RunKeepsValid(INITIAL, schedule);
  }

  /** At most one EnsureDefault runs per tenant. */
  lemma OneRunningPerTenant(s: State, p: Pid, q: Pid)
    requires Reachable(s) && p in s.callers && q in s.callers
    requires s.callers[p].pc.Running? && s.callers[q].pc.Running? && s.callers[p].tenant == s.callers[q].tenant
    ensures p == q
  {
    ReachableIsValid(s);
    assert CallerOk(s, p, s.callers[p]) && CallerOk(s, q, s.callers[q]);
  }

  lemma OnlyJoinBegins(s: State, p: Pid, choice: Choice)
    requires p in s.callers && |Step(s, p, choice).attempts| > |s.attempts|
    ensures s.callers[p].tenant !in s.ready && s.callers[p].tenant !in s.inFlight
  {
  }

  /** No EnsureDefault starts for a tenant for which one runs or has succeeded. */
  lemma NoneStartsAfterSuccess(s: State, p: Pid, choice: Choice)
    requires Reachable(s) && p in s.callers && |Step(s, p, choice).attempts| > |s.attempts|
    ensures !Succeeded(s, s.callers[p].tenant)
    ensures forall q | q in s.callers && s.callers[q].pc.Running? :: s.callers[q].tenant != s.callers[p].tenant
  {
    ReachableIsValid(s);
    OnlyJoinBegins(s, p, choice);
    hide Step, Reachable;
    forall q | q in s.callers && s.callers[q].pc.Running? ensures s.callers[q].tenant != s.callers[p].tenant {
      assert CallerOk(s, q, s.callers[q]);
    }
    forall a | 0 <= a < |s.attempts| && s.attempts[a].tenant == s.callers[p].tenant ensures s.attempts[a].returned != Some(Fine) {
      assert AttemptOk(s, a, s.attempts[a]);
    }
  }

  /** The channel of an attempt is never closed twice, it is closed exactly when the
      attempt has left the table, and until then its leader is at work on it. */
  lemma ClosedExactlyOnce(s: State, a: nat)
    requires Reachable(s) && a < |s.attempts|
    ensures s.attempts[a].closes <= 1
    ensures s.attempts[a].closes == 0 <==> s.attempts[a].tenant in s.inFlight && s.inFlight[s.attempts[a].tenant] == a
    ensures s.attempts[a].closes == 0 <==>
              s.attempts[a].leader in s.callers && LeadsPc(s.callers[s.attempts[a].leader].pc, a)
  {
    ReachableIsValid(s);
    assert AttemptOk(s, a, s.attempts[a]);
    if s.attempts[a].leader in s.callers {
      assert CallerOk(s, s.attempts[a].leader, s.callers[s.attempts[a].leader]);
    }
  }

  /** A waiter whose channel is closed leaves with what EnsureDefault answered its leader. */
  lemma WaiterGetsLeadersResult(s: State, p: Pid, a: nat, choice: Choice)
    requires Reachable(s) && p in s.callers && s.callers[p].pc == Waiting(a) && !choice.Expire?
    ensures a < |s.attempts| && s.attempts[a].tenant == s.callers[p].tenant
    ensures s.attempts[a].closes > 0 ==> s.attempts[a].returned.Some?
    ensures Step(s, p, choice).callers[p].pc ==
            if s.attempts[a].closes == 0 then Waiting(a)
            else if s.attempts[a].returned == Some(Fine) then Marking
            else Rejected(a, s.attempts[a].returned.value.error)
  {
    ReachableIsValid(s);
    assert CallerOk(s, p, s.callers[p]);
    assert AttemptOk(s, a, s.attempts[a]);
  }

  /** An authenticated request for a tenant reaches the next handler only if EnsureDefault
      has succeeded for it, and a request is rejected with an error only if EnsureDefault
      answered it for that tenant. */
  lemma PassedOnlyAfterSuccess(s: State, p: Pid)
    requires Reachable(s) && p in s.callers
    ensures s.callers[p].pc.Passed? && s.callers[p].authenticated && s.callers[p].tenant != "" ==> Succeeded(s, s.callers[p].tenant)
    ensures s.callers[p].pc.Rejected? ==>
              var a := s.callers[p].pc.attempt;
              a < |s.attempts| && s.attempts[a].tenant == s.callers[p].tenant && s.attempts[a].returned == Some(Failed(s.callers[p].pc.error))
  {
    ReachableIsValid(s);
    assert CallerOk(s, p, s.callers[p]);
  }

  // ----- Every caller gets on, and to the right end

  /** How far a caller is from its end at most. */
  function Ahead(pc: Pc): nat {
    match pc
    case Arrived => 9
    case Checking => 8
    case Locking => 7
    case Running(_) => 6
    case Storing(_) => 5
    case Publishing(_, _) => 4
    case Waiting(_) => 3
    case Marking => 1
    case _ => 0
  }

  predicate Over(pc: Pc) {
    pc.Passed? || pc.GaveUp? || pc.Rejected?
  }

  /** A caller can only wait for EnsureDefault to answer or for its attempt to be closed. */
  predicate CanGo(s: State, p: Pid, choice: Choice)
    requires p in s.callers
  {
    match s.callers[p].pc
    case Running(_) => choice.Answer?
    case Waiting(a) => choice.Expire? || (a < |s.attempts| && s.attempts[a].closes > 0)
    case _ => true
  }

  /** Every step brings its caller closer to its end and leaves all others alone. */
  lemma EveryStepAdvances(s: State, p: Pid, choice: Choice)
    requires Reachable(s) && p in s.callers && !Over(s.callers[p].pc) && CanGo(s, p, choice)
    ensures var t := Step(s, p, choice);
            && t.callers == s.callers[p := t.callers[p]] && p in t.callers
            && t.callers[p].authenticated == s.callers[p].authenticated && t.callers[p].tenant == s.callers[p].tenant
            && Ahead(t.callers[p].pc) < Ahead(s.callers[p].pc)
            && (Ahead(t.callers[p].pc) == 0 <==> Over(t.callers[p].pc))
  {
    hide Valid, Reachable, Succeeded;
    ReachableIsValid(s);
    ValidAt(s, p);
  }

  /** Only a waiter whose time is up gives up. */
  lemma GivesUpOnlyOnExpiry(s: State, p: Pid, choice: Choice)
    requires p in s.callers && !s.callers[p].pc.GaveUp? && Step(s, p, choice).callers[p].pc.GaveUp?
    ensures s.callers[p].pc.Waiting? && choice.Expire?
  {
  }

  /** A request that needs no tenant, or whose tenant is ready, passes at once. */
  lemma ReadyTenantsPass(s: State, p: Pid, choice: Choice)
    requires p in s.callers && s.callers[p].pc.Arrived?
    requires !s.callers[p].authenticated || s.callers[p].tenant == "" || s.callers[p].tenant in s.ready
    ensures Step(s, p, choice).callers[p].pc.Passed?
  {
  }

  /** So does a request whose tenant is blank. */
  lemma BlankTenantsPass(s: State, p: Pid, authenticated: bool, tenant: string, choice: Choice)
    requires p !in s.callers && AllSpace(tenant)
    ensures var t := Step(Step(s, p, Arrive(authenticated, tenant)), p, choice); p in t.callers && t.callers[p].pc.Passed?
  {
    TrimOfBlank(tenant);
  }

  /** After a failure the next caller tries again. */
  lemma NextCallerTriesAgain(s: State, p: Pid, choice: Choice)
    requires p in s.callers && s.callers[p].pc.Locking? && s.callers[p].tenant !in s.ready && s.callers[p].tenant !in s.inFlight
    ensures var t := Step(s, p, choice);
            t.callers[p].pc == Running(|s.attempts|) && |t.attempts| == |s.attempts| + 1
            && t.attempts[|s.attempts|].tenant == s.callers[p].tenant
  {
  }

  /** A caller whose way is free: it knows of a success, or waits for one that is closed. */
  predicate Succeeds(s: State, p: Pid) {
    p in s.callers &&
    match s.callers[p].pc
    case Storing(_) => true
    case Publishing(_, reply) => reply.Fine?
    case Marking => true
    case Waiting(a) => a < |s.attempts| && s.attempts[a].closes > 0 && s.attempts[a].returned == Some(Fine)
    case _ => false
  }

  /** A caller's next steps, whatever the choices but that it does not expire. */
  function Steps(p: Pid, choices: seq<Choice>): seq<(Pid, Choice)> {
    seq(|choices|, i requires 0 <= i < |choices| => (p, choices[i]))
  }

  /** A leader whose EnsureDefault succeeded passes after three steps of its own at most, and
      a waiter whose attempt was closed with a success after two. */
  lemma SuccessPasses(s: State, p: Pid, choices: seq<Choice>)
    requires Reachable(s) && Succeeds(s, p) && forall i | 0 <= i < |choices| :: !choices[i].Expire?
    requires |choices| >= if s.callers[p].pc.Storing? then 3 else if s.callers[p].pc.Marking? then 1 else 2
    ensures var t := Run(s, Steps(p, choices)); p in t.callers && t.callers[p].pc.Passed?
  {
    ReachableIsValid(s);
    hide Reachable;
    SuccessPassesFrom(s, p, choices);
  }

  lemma {:induction false} SuccessPassesFrom(s: State, p: Pid, choices: seq<Choice>)
    requires Valid(s) && Succeeds(s, p) && forall i | 0 <= i < |choices| :: !choices[i].Expire?
    requires |choices| >= if s.callers[p].pc.Storing? then 3 else if s.callers[p].pc.Marking? then 1 else 2
    ensures var t := Run(s, Steps(p, choices)); p in t.callers && t.callers[p].pc.Passed?
    decreases |choices|
  {
    hide Run;
    var t := Step(s, p, choices[0]);
    StepKeepsValid(s, p, choices[0]);
    SuccessStep(s, p, choices[0]);
    RunFrom(s, Steps(p, choices));
    assert Steps(p, choices)[1..] == Steps(p, choices[1..]);
    hide Valid, Step;
    if s.callers[p].pc.Marking? {
      PassedStays(t, p, choices[1..]);
    } else {
      SuccessPassesFrom(t, p, choices[1..]);
    }
  }

  lemma SuccessStep(s: State, p: Pid, choice: Choice)
    requires Valid(s) && Succeeds(s, p) && !choice.Expire?
    ensures var t := Step(s, p, choice);
            && p in t.callers
            && match s.callers[p].pc
               case Storing(_) => Succeeds(t, p) && t.callers[p].pc.Publishing?
               case Marking => t.callers[p].pc.Passed?
               case _ => Succeeds(t, p) && t.callers[p].pc.Marking?
  {
    hide Serial, Succeeded;
    assert CallerOk(s, p, s.callers[p]);
    if s.callers[p].pc.Waiting? {
      assert AttemptOk(s, s.callers[p].pc.attempt, s.attempts[s.callers[p].pc.attempt]);
    }
  }

  lemma {:induction false} PassedStays(s: State, p: Pid, choices: seq<Choice>)
    requires p in s.callers && s.callers[p].pc.Passed?
    ensures var t := Run(s, Steps(p, choices)); p in t.callers && t.callers[p].pc.Passed?
  {
    if choices != [] {
      var n := |choices| - 1;
      PassedStays(s, p, choices[..n]);
      assert Steps(p, choices)[..n] == Steps(p, choices[..n]);
    }
  }

  function StepsLeft(pc: Pc): nat {
    match pc
    case Running(_) => 3
    case Storing(_) => 2
    case Publishing(_, _) => 1
    case _ => 0
  }

  /** The leader's next step, which nobody can prevent, brings it closer to the end. */
  lemma LeaderAdvances(s: State, l: Pid, a: nat, reply: Reply)
    requires l in s.callers && LeadsPc(s.callers[l].pc, a) && a < |s.attempts| && s.attempts[a].closes == 0
    ensures var t := Step(s, l, Answer(reply));
            && t.callers == s.callers[l := t.callers[l]] && l in t.callers && |t.attempts| == |s.attempts|
            && if s.callers[l].pc.Publishing? then t.attempts[a].closes == 1
               else t.attempts[a].closes == 0 && LeadsPc(t.callers[l].pc, a) && StepsLeft(t.callers[l].pc) < StepsLeft(s.callers[l].pc)
  {
  }

  lemma {:induction false} LeaderReleases(s: State, l: Pid, p: Pid, a: nat, reply: Reply) returns (steps: seq<(Pid, Choice)>)
    requires l in s.callers && LeadsPc(s.callers[l].pc, a) && a < |s.attempts| && s.attempts[a].closes == 0
    requires p in s.callers && s.callers[p].pc == Waiting(a)
    ensures |steps| <= StepsLeft(s.callers[l].pc) && forall i | 0 <= i < |steps| :: steps[i].0 == l
    ensures var end := Run(s, steps);
            a < |end.attempts| && end.attempts[a].closes == 1 && p in end.callers && end.callers[p].pc == Waiting(a)
    decreases StepsLeft(s.callers[l].pc)
  {
    hide Step, Run;
    LeaderAdvances(s, l, a, reply);
    var t := Step(s, l, Answer(reply));
    var rest: seq<(Pid, Choice)> := [];
    if s.callers[l].pc.Publishing? {
      RunOfNone(t);
    } else {
      rest := LeaderReleases(t, l, p, a, reply);
    }
    steps := [(l, Answer(reply))] + rest;
    RunFrom(s, steps);
    assert steps[1..] == rest;
  }

  lemma RunOfNone(s: State)
    ensures Run(s, []) == s
  {
  }

  lemma {:induction false} RunFrom(s: State, steps: seq<(Pid, Choice)>)
    requires steps != []
    ensures Run(s, steps) == Run(Step(s, steps[0].0, steps[0].1), steps[1..])
  {
    hide Step;
    var n := |steps| - 1;
    if n > 0 {
      RunFrom(s, steps[..n]);
      assert steps[..n][1..] == steps[1..][..n - 1];
    } else {
      assert Run(s, steps[..0]) == s;
    }
  }

  /** The steps are all `p`'s own, at most three, and close the channel of attempt `a`. */
  ghost predicate Releases(s: State, steps: seq<(Pid, Choice)>, p: Pid, a: nat) {
    && |steps| <= 3 && (forall i | 0 <= i < |steps| :: steps[i].0 == p)
    && a < |Run(s, steps).attempts| && Run(s, steps).attempts[a].closes == 1
  }

  /** A waiter is never stranded: whatever EnsureDefault answers, the leader of its attempt
      can close the channel in at most three steps of its own. */
  lemma LeaderCanRelease(s: State, p: Pid, a: nat, reply: Reply)
    requires Reachable(s) && p in s.callers && s.callers[p].pc == Waiting(a)
    ensures a < |s.attempts| && exists steps :: Releases(s, steps, s.attempts[a].leader, a)
  {
    hide Serial, Succeeded, Run;
    ReachableIsValid(s);
    assert CallerOk(s, p, s.callers[p]);
    assert AttemptOk(s, a, s.attempts[a]);
    var steps := [];
    if s.attempts[a].closes == 0 {
      steps := LeaderReleases(s, s.attempts[a].leader, p, a, reply);
    } else {
      RunOfNone(s);
    }
    assert Releases(s, steps, s.attempts[a].leader, a);
  }
}
