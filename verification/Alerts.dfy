/** The life of alert events: a polling evaluator fires, re-notifies and resolves them,
    and users acknowledge and resolve them by hand. */
module Alerts {
  import opened Basics

  type RuleId = nat
  type Time = int

  /** Five minutes, in seconds. */
  const RENOTIFY := 300

  datatype Status = Firing | Acknowledged | Resolved

  /** `count` is the number of targets notified, `lastNotified` when any last was. */
  datatype Event = Event(rule: RuleId, status: Status, firedAt: Time, lastNotified: Option<Time>, count: nat)

  /** A notification that reached at least one target; it belongs to no event if the event
      could not be stored. */
  datatype Delivery = Delivery(event: Option<nat>, at: Time, targets: nat)

  /** The stored events in order of creation, and all deliveries so far. */
  datatype State = State(events: seq<Event>, deliveries: seq<Delivery>)

  datatype Rule = Rule(id: RuleId, metric: string, operator: string, threshold: real)

  /** `reading` is None when the metric query fails, `delivered` the number of targets a
      notification reaches now, and `stored` whether the store accepts a write. */
  datatype Command =
    | Tick(rule: Rule, reading: Option<real>, now: Time, delivered: nat, stored: bool)
    | Acknowledge(event: nat)
    | Resolve(event: nat)

  function IsBreached(operator: string, value: real, threshold: real): bool {
    match operator
    case ">" => value > threshold
    case "<" => value < threshold
    case ">=" => value >= threshold
    case "<=" => value <= threshold
    case _ => false
  }

  predicate IsEventDriven(metric: string) {
    |metric| >= 5 && metric[..5] == "eval."
  }

  predicate ActiveFor(e: Event, rule: RuleId) {
    e.rule == rule && e.status != Resolved
  }

  /** The active event of a rule that fired last. */
  function ActiveEvent(events: seq<Event>, rule: RuleId): (r: Option<nat>)
    ensures r.Some? ==> r.value < |events| && ActiveFor(events[r.value], rule)
    ensures r.Some? ==> forall i | 0 <= i < |events| && ActiveFor(events[i], rule) :: events[i].firedAt <= events[r.value].firedAt
    ensures r.None? ==> forall i | 0 <= i < |events| :: !ActiveFor(events[i], rule)
  {
    if events == [] then None
    else
      var last := |events| - 1;
      var earlier := ActiveEvent(events[..last], rule);
      assert forall i | 0 <= i < last :: events[..last][i] == events[i];
      if !ActiveFor(events[last], rule) || (earlier.Some? && events[earlier.value].firedAt > events[last].firedAt)
      then earlier else Some(last)
  }

  predicate Due(e: Event, now: Time) {
    e.lastNotified.None? || now - e.lastNotified.value >= RENOTIFY
  }

  function Notified(s: State, event: Option<nat>, now: Time, delivered: nat): State {
    if delivered > 0 then s.(deliveries := s.deliveries + [Delivery(event, now, delivered)]) else s
  }

  function NewEvent(rule: RuleId, now: Time, delivered: nat): Event {
    Event(rule, Firing, now, if delivered > 0 then Some(now) else None, delivered)
  }

  function Renotified(e: Event, now: Time, delivered: nat): Event {
    if delivered > 0 then e.(lastNotified := Some(now), count := e.count + delivered) else e
  }

  function SetStatus(s: State, event: nat, status: Status): State {
    if event < |s.events| then s.(events := s.events[event := s.events[event].(status := status)]) else s
  }

  predicate Polled(c: Command) {
    c.Tick? && !IsEventDriven(c.rule.metric) && c.reading.Some?
  }

  predicate Breaches(c: Command)
    requires Polled(c)
  {
    IsBreached(c.rule.operator, c.reading.value, c.rule.threshold)
  }

  /** The tick has something to store: a new event, a notification it owes, or a recovery. */
  predicate Writes(s: State, c: Command)
    requires Polled(c)
  {
    var active := ActiveEvent(s.events, c.rule.id);
    if Breaches(c) then active.None? || (s.events[active.value].status == Firing && Due(s.events[active.value], c.now)) else active.Some?
  }

  function TickStep(s: State, c: Command): State
    requires Polled(c)
  {
    var active := ActiveEvent(s.events, c.rule.id);
    if Breaches(c) then
      if active.None? then
        if c.stored then Notified(s, Some(|s.events|), c.now, c.delivered).(events := s.events + [NewEvent(c.rule.id, c.now, c.delivered)])
        else Notified(s, None, c.now, c.delivered)
      else
        var e := s.events[active.value];
        if e.status.Firing? && Due(e, c.now) then
          var t := Notified(s, active, c.now, c.delivered);
          if c.stored then t.(events := s.events[active.value := Renotified(e, c.now, c.delivered)]) else t
        else s
    else if active.Some? && c.stored then SetStatus(s, active.value, Resolved)
    else s
  }

  function Step(s: State, c: Command): State {
    match c
    case Tick(_, _, _, _, _) => if Polled(c) then TickStep(s, c) else s
    case Acknowledge(event) => SetStatus(s, event, Acknowledged)
    case Resolve(event) => SetStatus(s, event, Resolved)
  }

  function Run(s: State, cs: seq<Command>): State {
    if cs == [] then s else Step(Run(s, cs[..|cs| - 1]), cs[|cs| - 1])
  }

  const NOTHING := State([], [])

  // ----- At most one active event

  ghost predicate OneActive(events: seq<Event>) {
    forall i, j | 0 <= i < |events| && 0 <= j < |events| && events[i].rule == events[j].rule ::
      events[i].status != Resolved && events[j].status != Resolved ==> i == j
  }

  /** An acknowledgement of an event that is still active, or of none. */
  predicate CarefulStep(s: State, c: Command) {
    c.Acknowledge? && c.event < |s.events| ==> s.events[c.event].status != Resolved
  }

  ghost predicate Careful(s: State, cs: seq<Command>) {
    forall k | 0 <= k < |cs| :: CarefulStep(Run(s, cs[..k]), cs[k])
  }

  lemma CarefulPrefix(s: State, cs: seq<Command>)
    requires Careful(s, cs) && cs != []
    ensures Careful(s, cs[..|cs| - 1]) && CarefulStep(Run(s, cs[..|cs| - 1]), cs[|cs| - 1])
  {
    hide Run, CarefulStep;
    var init := cs[..|cs| - 1];
    forall k | 0 <= k < |init| ensures CarefulStep(Run(s, init[..k]), init[k]) {
      assert init[..k] == cs[..k];
    }
  }

  /** One step keeps "at most one active event per rule" exactly when it is not the
      acknowledgement of a resolved event beside an active one. */
  lemma OneActiveStep(s: State, c: Command)
    requires OneActive(s.events)
    ensures OneActive(Step(s, c).events) <==>
              (CarefulStep(s, c) || ActiveEvent(s.events, s.events[c.event].rule).None?)
  {
    if c.Acknowledge? && c.event < |s.events| {
      var active := ActiveEvent(s.events, s.events[c.event].rule);
      var after := Step(s, c).events;
      if active.Some? && s.events[c.event].status == Resolved {
        assert after[c.event].rule == after[active.value].rule && after[active.value].status != Resolved;
      }
    }
  }

  /** With careful acknowledgements no rule ever has two active events. */
  lemma {:induction false} OneActiveAlways(cs: seq<Command>)
    requires Careful(NOTHING, cs)
    ensures OneActive(Run(NOTHING, cs).events)
  {
    hide Step, OneActive;
    if cs == [] {
      assert OneActive(NOTHING.events) by { NoneIsOneActive(); }
    } else {
      CarefulPrefix(NOTHING, cs);
      OneActiveAlways(cs[..|cs| - 1]);
      OneActiveStep(Run(NOTHING, cs[..|cs| - 1]), cs[|cs| - 1]);
    }
  }

  lemma NoneIsOneActive()
    ensures OneActive(NOTHING.events)
  {
  }

  ghost predicate HasActive(events: seq<Event>, rule: RuleId) {
    exists i :: 0 <= i < |events| && ActiveFor(events[i], rule)
  }

  /** After a tick whose writes are stored, the rule has an active event exactly when the
      reading stands to the threshold as the operator says; with any other operator none. */
  lemma ActiveExactlyWhenBreached(s: State, c: Command)
    requires c.Tick? && OneActive(s.events) && !("eval." <= c.rule.metric) && c.reading.Some? && c.stored
    ensures HasActive(Step(s, c).events, c.rule.id) <==>
              || (c.rule.operator == ">" && c.reading.value > c.rule.threshold)
              || (c.rule.operator == "<" && c.reading.value < c.rule.threshold)
              || (c.rule.operator == ">=" && c.reading.value >= c.rule.threshold)
              || (c.rule.operator == "<=" && c.reading.value <= c.rule.threshold)
  {
    var after := Step(s, c).events;
    var active := ActiveEvent(s.events, c.rule.id);
    if Breaches(c) {
      var i := if active.Some? then active.value else |s.events|;
      assert ActiveFor(after[i], c.rule.id);
    }
  }

  /** A tick creates an event exactly when it breaches beside no active event and the store
      accepts it; the new event fires now, and counts whom the notification reached. */
  lemma FiresExactly(s: State, c: Command)
    requires Polled(c)
    ensures var t := Step(s, c);
            if Breaches(c) && c.stored && forall i | 0 <= i < |s.events| :: !ActiveFor(s.events[i], c.rule.id) then
              && |t.events| == |s.events| + 1 && t.events[..|s.events|] == s.events
              && var e := t.events[|s.events|];
                 && e.rule == c.rule.id && e.status == Firing && e.firedAt == c.now && e.count == c.delivered
                 && e.lastNotified == (if c.delivered == 0 then None else Some(c.now))
            else |t.events| == |s.events|
  {
    var active := ActiveEvent(s.events, c.rule.id);
    assert active.Some? ==> ActiveFor(s.events[active.value], c.rule.id);
  }

  /** A tick notifies exactly when it breaches beside no active event, or beside a firing one
      that was never notified or last five minutes ago or more. */
  lemma NotifiesExactly(s: State, c: Command)
    requires Polled(c)
    ensures var t, active := Step(s, c), ActiveEvent(s.events, c.rule.id);
            var waits := active.Some? && s.events[active.value].lastNotified.Some? && c.now < s.events[active.value].lastNotified.value + 5 * 60;
            if Breaches(c) && c.delivered > 0 && (active.Some? ==> s.events[active.value].status == Firing) && !waits then
              && |t.deliveries| == |s.deliveries| + 1 && t.deliveries[..|s.deliveries|] == s.deliveries
              && t.deliveries[|s.deliveries|].at == c.now && t.deliveries[|s.deliveries|].targets == c.delivered
              && (active.Some? && c.stored ==> t.events[active.value].count == s.events[active.value].count + c.delivered
                                               && t.events[active.value].lastNotified == Some(c.now))
            else t.deliveries == s.deliveries
  {
  }

  /** A tick changes the status of an event exactly when the event is the active one of its
      rule, the tick does not breach and the store accepts it; the event is then resolved. */
  lemma ResolvesExactly(s: State, c: Command, e: nat)
    requires Polled(c) && e < |s.events|
    ensures var t := Step(s, c);
            && e < |t.events| && t.events[e].rule == s.events[e].rule && t.events[e].firedAt == s.events[e].firedAt
            && t.events[e].status == if ActiveEvent(s.events, c.rule.id) == Some(e) && !Breaches(c) && c.stored then Resolved else s.events[e].status
  {
  }

  // ----- Resolved events

  /** No step of the run makes a resolved event active again. */
  ghost predicate NeverReactivates(s: State, cs: seq<Command>) {
    forall k, e | 0 <= k < |cs| && 0 <= e < |Run(s, cs[..k]).events| && Run(s, cs[..k]).events[e].status == Resolved ::
      e < |Step(Run(s, cs[..k]), cs[k]).events| && Step(Run(s, cs[..k]), cs[k]).events[e].status == Resolved
  }

  lemma ResolvedStep(s: State, c: Command, e: nat)
    requires e < |s.events| && s.events[e].status == Resolved
    ensures var events := Step(s, c).events;
            e < |events| && (events[e].status == Resolved <==> c != Acknowledge(e))
  {
  }

  /** Resolved events stay resolved exactly in the runs with careful acknowledgements. */
  lemma ResolvedStaysExactly(s: State, cs: seq<Command>)
    ensures NeverReactivates(s, cs) <==> Careful(s, cs)
  {
    hide Run, Step;
    forall k | 0 <= k < |cs|
      ensures CarefulStep(Run(s, cs[..k]), cs[k]) <==>
              forall e | 0 <= e < |Run(s, cs[..k]).events| && Run(s, cs[..k]).events[e].status == Resolved ::
                e < |Step(Run(s, cs[..k]), cs[k]).events| && Step(Run(s, cs[..k]), cs[k]).events[e].status == Resolved
    {
      var t := Run(s, cs[..k]);
      forall e: nat | e < |t.events| && t.events[e].status == Resolved
        ensures e < |Step(t, cs[k]).events| && (Step(t, cs[k]).events[e].status == Resolved <==> cs[k] != Acknowledge(e))
      {
        ResolvedStep(t, cs[k], e);
      }
    }
  }

  // ----- Deliveries

  function TargetsFor(ds: seq<Delivery>, e: nat): nat {
    if ds == [] then 0
    else TargetsFor(ds[..|ds| - 1], e) + if ds[|ds| - 1].event == Some(e) then ds[|ds| - 1].targets else 0
  }

  function LastFor(ds: seq<Delivery>, e: nat): Option<Time> {
    if ds == [] then None
    else if ds[|ds| - 1].event == Some(e) then Some(ds[|ds| - 1].at)
    else LastFor(ds[..|ds| - 1], e)
  }

  /** Deliveries for one event are at least the interval apart. */
  ghost predicate Spaced(ds: seq<Delivery>) {
    forall i, j | 0 <= i < j < |ds| && ds[i].event.Some? && ds[i].event == ds[j].event :: ds[j].at - ds[i].at >= RENOTIFY
  }

  ghost predicate Recorded(s: State, e: nat)
    requires e < |s.events|
  {
    s.events[e].count == TargetsFor(s.deliveries, e) && s.events[e].lastNotified == LastFor(s.deliveries, e)
  }

  ghost predicate Honest(s: State) {
    && (forall e | 0 <= e < |s.events| :: Recorded(s, e))
    && (forall i | 0 <= i < |s.deliveries| && s.deliveries[i].event.Some? :: s.deliveries[i].event.value < |s.events|)
    && Spaced(s.deliveries)
  }

  lemma {:induction false} LastIsLast(ds: seq<Delivery>, i: nat, e: nat)
    requires Spaced(ds) && i < |ds| && ds[i].event == Some(e)
    ensures LastFor(ds, e).Some? && ds[i].at <= LastFor(ds, e).value
  {
    var n := |ds| - 1;
    if ds[n].event != Some(e) {
      LastIsLast(ds[..n], i, e);
    }
  }

  lemma {:induction false} NoneForNew(ds: seq<Delivery>, e: nat)
    requires forall i | 0 <= i < |ds| && ds[i].event.Some? :: ds[i].event.value < e
    ensures TargetsFor(ds, e) == 0 && LastFor(ds, e) == None
  {
    if ds != [] {
      NoneForNew(ds[..|ds| - 1], e);
    }
  }

  lemma DeliveryAdded(ds: seq<Delivery>, d: Delivery, e: nat)
    ensures TargetsFor(ds + [d], e) == TargetsFor(ds, e) + if d.event == Some(e) then d.targets else 0
    ensures LastFor(ds + [d], e) == if d.event == Some(e) then Some(d.at) else LastFor(ds, e)
  {
    assert (ds + [d])[..|ds|] == ds;
  }

  lemma SpacedStep(ds: seq<Delivery>, d: Delivery)
    requires Spaced(ds)
    requires d.event.Some? ==> LastFor(ds, d.event.value).None? || d.at - LastFor(ds, d.event.value).value >= RENOTIFY
    ensures Spaced(ds + [d])
  {
    forall i | 0 <= i < |ds| && ds[i].event.Some? && ds[i].event == d.event ensures d.at - ds[i].at >= RENOTIFY {
      LastIsLast(ds, i, d.event.value);
    }
  }

  /** A re-notification that reaches somebody but is not stored. */
  predicate Forgets(s: State, c: Command) {
    && Polled(c) && Breaches(c) && c.delivered > 0 && !c.stored
    && var active := ActiveEvent(s.events, c.rule.id);
       active.Some? && s.events[active.value].status.Firing? && Due(s.events[active.value], c.now)
  }

  lemma UnstoredFiringKeepsHonest(s: State, now: Time, delivered: nat)
    requires Honest(s)
    ensures Honest(Notified(s, None, now, delivered))
  {
    var t := Notified(s, None, now, delivered);
    forall e | 0 <= e < |t.events| ensures Recorded(t, e) {
      DeliveryAdded(s.deliveries, Delivery(None, now, delivered), e);
      assert Recorded(s, e);
    }
  }

  lemma FireKeepsHonest(s: State, rule: RuleId, now: Time, delivered: nat)
    requires Honest(s)
    ensures Honest(Notified(s, Some(|s.events|), now, delivered).(events := s.events + [NewEvent(rule, now, delivered)]))
  {
    var d := Delivery(Some(|s.events|), now, delivered);
    var t := Notified(s, Some(|s.events|), now, delivered).(events := s.events + [NewEvent(rule, now, delivered)]);
    NoneForNew(s.deliveries, |s.events|);
    SpacedStep(s.deliveries, d);
    forall e | 0 <= e < |t.events| ensures Recorded(t, e) {
      DeliveryAdded(s.deliveries, d, e);
      assert e < |s.events| ==> Recorded(s, e);
    }
  }

  lemma RenotifyKeepsHonest(s: State, a: nat, now: Time, delivered: nat)
    requires Honest(s) && a < |s.events| && Due(s.events[a], now)
    ensures Honest(Notified(s, Some(a), now, delivered).(events := s.events[a := Renotified(s.events[a], now, delivered)]))
  {
    var d := Delivery(Some(a), now, delivered);
    var t := Notified(s, Some(a), now, delivered).(events := s.events[a := Renotified(s.events[a], now, delivered)]);
    assert Recorded(s, a);
    SpacedStep(s.deliveries, d);
    forall e | 0 <= e < |t.events| ensures Recorded(t, e) {
      DeliveryAdded(s.deliveries, d, e);
      assert Recorded(s, e);
    }
  }

  lemma StatusKeepsHonest(s: State, event: nat, status: Status)
    requires Honest(s)
    ensures Honest(SetStatus(s, event, status))
  {
    hide TargetsFor, LastFor, Spaced;
    var t := SetStatus(s, event, status);
    forall e | 0 <= e < |t.events| ensures Recorded(t, e) {
      assert Recorded(s, e);
    }
  }

  lemma TickKeepsHonest(s: State, c: Command)
    requires Honest(s) && Polled(c) && !Forgets(s, c)
    ensures Honest(TickStep(s, c))
  {
    hide Honest;
    var active := ActiveEvent(s.events, c.rule.id);
    UnstoredFiringKeepsHonest(s, c.now, c.delivered);
    FireKeepsHonest(s, c.rule.id, c.now, c.delivered);
    if active.Some? {
      StatusKeepsHonest(s, active.value, Resolved);
      if Due(s.events[active.value], c.now) {
        RenotifyKeepsHonest(s, active.value, c.now, c.delivered);
      }
    }
  }

  /** One step keeps count and spacing exactly when it does not forget a delivery. */
  lemma HonestStepExactly(s: State, c: Command)
    requires Honest(s)
    ensures Honest(Step(s, c)) <==> !Forgets(s, c)
  {
    hide Honest;
    if Forgets(s, c) {
      ForgettingFallsBehind(s, c);
      BehindIsNotHonest(Step(s, c), ActiveEvent(s.events, c.rule.id).value);
    } else {
      match c
      case Acknowledge(event) => StatusKeepsHonest(s, event, Acknowledged);
      case Resolve(event) => StatusKeepsHonest(s, event, Resolved);
      case Tick(_, _, _, _, _) => if Polled(c) { TickKeepsHonest(s, c); }
    }
  }

  /** More targets were reached for the event than it counts. */
  ghost predicate Behind(s: State, e: nat) {
    e < |s.events| && s.events[e].count < TargetsFor(s.deliveries, e)
  }

  lemma BehindIsNotHonest(s: State, e: nat)
    requires Behind(s, e)
    ensures !Honest(s)
  {
    assert Honest(s) ==> Recorded(s, e);
  }

  lemma ForgetsOf(s: State, c: Command)
    requires Forgets(s, c)
    ensures c.Tick? && ActiveEvent(s.events, c.rule.id).Some?
  {
  }

  lemma ForgettingFallsBehind(s: State, c: Command)
    requires Honest(s) && Forgets(s, c)
    ensures Behind(Step(s, c), ActiveEvent(s.events, c.rule.id).value)
  {
    var a := ActiveEvent(s.events, c.rule.id).value;
    DeliveryAdded(s.deliveries, Delivery(Some(a), c.now, c.delivered), a);
    assert Recorded(s, a);
  }

  /** A count that is behind stays behind. */
  lemma BehindStays(s: State, c: Command, e: nat)
    requires Behind(s, e)
    ensures Behind(Step(s, c), e)
  {
    if Polled(c) {
      var active := ActiveEvent(s.events, c.rule.id);
      DeliveryAdded(s.deliveries, Delivery(active, c.now, c.delivered), e);
      DeliveryAdded(s.deliveries, Delivery(None, c.now, c.delivered), e);
      DeliveryAdded(s.deliveries, Delivery(Some(|s.events|), c.now, c.delivered), e);
      hide TargetsFor, ActiveFor;
    }
  }

  lemma {:induction false} BehindForever(s: State, cs: seq<Command>, e: nat)
    requires Behind(s, e)
    ensures Behind(Run(s, cs), e)
  {
    hide Behind, Step;
    if cs != [] {
      BehindForever(s, cs[..|cs| - 1], e);
      BehindStays(Run(s, cs[..|cs| - 1]), cs[|cs| - 1], e);
    }
  }

  /** No step of the run forgets a delivery. */
  ghost predicate NeverForgets(s: State, cs: seq<Command>) {
    forall k | 0 <= k < |cs| :: !Forgets(Run(s, cs[..k]), cs[k])
  }

  lemma {:induction false} RunAppend(s: State, a: seq<Command>, b: seq<Command>)
    ensures Run(s, a + b) == Run(Run(s, a), b)
  {
    hide Step;
    if b == [] {
      assert a + b == a;
    } else {
      RunAppend(s, a, b[..|b| - 1]);
      assert (a + b)[..|a + b| - 1] == a + b[..|b| - 1];
    }
  }

  lemma NeverForgetsStep(s: State, cs: seq<Command>)
    requires cs != []
    ensures var init := cs[..|cs| - 1];
            NeverForgets(s, cs) <==> NeverForgets(s, init) && !Forgets(Run(s, init), cs[|cs| - 1])
  {
    hide Run, Forgets;
    var init := cs[..|cs| - 1];
    assert forall k | 0 <= k < |init| :: init[..k] == cs[..k] && init[k] == cs[k];
  }

  /** In exactly the runs that forget no delivery, an event's count is the number of targets
      reached for it, and its deliveries are at least the interval apart. */
  lemma {:induction false} DeliveriesAreRecordedExactly(s: State, cs: seq<Command>)
    requires Honest(s)
    ensures Honest(Run(s, cs)) <==> NeverForgets(s, cs)
  {
    hide Step, Honest, Forgets, NeverForgets;
    if cs == [] {
      NeverForgetsNothing(s);
    } else {
      var init, last := cs[..|cs| - 1], cs[|cs| - 1];
      DeliveriesAreRecordedExactly(s, init);
      NeverForgetsStep(s, cs);
      if NeverForgets(s, init) {
        HonestStepExactly(Run(s, init), last);
      } else {
        FirstForgotten(s, init);
        var k :| 0 <= k < |init| && Honest(Run(s, init[..k])) && Forgets(Run(s, init[..k]), init[k]);
        assert init[..k] == cs[..k] && init[k] == cs[k];
        ForgottenForGood(s, cs, k);
      }
    }
  }

  lemma NeverForgetsNothing(s: State)
    ensures NeverForgets(s, [])
  {
  }

  lemma {:induction false} FirstForgotten(s: State, cs: seq<Command>)
    requires Honest(s) && !NeverForgets(s, cs)
    ensures exists k :: 0 <= k < |cs| && Honest(Run(s, cs[..k])) && Forgets(Run(s, cs[..k]), cs[k])
  {
    hide Honest, Forgets, Step, Run;
    var n :| 0 <= n < |cs| && Forgets(Run(s, cs[..n]), cs[n]);
    var init := cs[..n];
    if NeverForgets(s, init) {
      DeliveriesAreRecordedExactly(s, init);
    } else {
      FirstForgotten(s, init);
      var k :| 0 <= k < |init| && Honest(Run(s, init[..k])) && Forgets(Run(s, init[..k]), init[k]);
      assert init[..k] == cs[..k] && init[k] == cs[k];
    }
  }

  lemma ForgottenForGood(s: State, cs: seq<Command>, k: nat)
    requires k < |cs| && Honest(Run(s, cs[..k])) && Forgets(Run(s, cs[..k]), cs[k])
    ensures !Honest(Run(s, cs))
  {
    hide Honest, Forgets, Step, Behind;
    var before := Run(s, cs[..k]);
    ForgetsOf(before, cs[k]);
    var e := ActiveEvent(before.events, cs[k].rule.id).value;
    assert Behind(Step(before, cs[k]), e) by { ForgettingFallsBehind(before, cs[k]); }
    assert cs == cs[..k + 1] + cs[k + 1..];
    RunAppend(s, cs[..k + 1], cs[k + 1..]);
    assert cs[..k + 1][..k] == cs[..k];
    BehindForever(Step(before, cs[k]), cs[k + 1..], e);
    BehindIsNotHonest(Run(s, cs), e);
  }

  /** A new firing that is not stored leaves no event, so every further breach notifies
      again, however soon: as many deliveries as ticks. */
  lemma {:induction false} UnstoredFiringsRepeat(s: State, cs: seq<Command>, rule: RuleId)
    requires ActiveEvent(s.events, rule).None?
    requires forall k | 0 <= k < |cs| :: Polled(cs[k]) && Breaches(cs[k]) && cs[k].rule.id == rule && cs[k].delivered > 0 && !cs[k].stored
    ensures Run(s, cs).events == s.events && |Run(s, cs).deliveries| == |s.deliveries| + |cs|
  {
    if cs != [] {
      UnstoredFiringsRepeat(s, cs[..|cs| - 1], rule);
    }
  }

  lemma QuietStep(s: State, c: Command, e: nat)
    requires e < |s.events| && s.events[e].status != Firing
    ensures var t := Step(s, c);
            && e < |t.events| && t.events[e].status != Firing && t.events[e].count == s.events[e].count
            && |s.deliveries| <= |t.deliveries| && t.deliveries[..|s.deliveries|] == s.deliveries
            && forall k | |s.deliveries| <= k < |t.deliveries| :: t.deliveries[k].event != Some(e)
  {
  }

  /** Once acknowledged or resolved, an event never fires again and nothing is delivered
      for it, whatever the run does, careless acknowledgements included. */
  lemma {:induction false} NoDeliveryAfterAcknowledgement(s: State, cs: seq<Command>, e: nat)
    requires e < |s.events| && s.events[e].status != Firing
    ensures var t := Run(s, cs);
            && e < |t.events| && t.events[e].status != Firing && t.events[e].count == s.events[e].count
            && |s.deliveries| <= |t.deliveries| && t.deliveries[..|s.deliveries|] == s.deliveries
            && forall k | |s.deliveries| <= k < |t.deliveries| :: t.deliveries[k].event != Some(e)
  {
    hide Step;
    if cs != [] {
      NoDeliveryAfterAcknowledgement(s, cs[..|cs| - 1], e);
      QuietStep(Run(s, cs[..|cs| - 1]), cs[|cs| - 1], e);
    }
  }

  // ----- The evaluator and the user's commands on the shared store

  class Evaluator {
    var events: seq<Event>
    ghost var deliveries: seq<Delivery>

    constructor ()
      ensures Now() == NOTHING
    {
      events, deliveries := [], [];
    }

    ghost function Now(): State
      reads this
    {
      State(events, deliveries)
    }

    method FindActive(rule: RuleId) returns (r: Option<nat>)
      ensures r == ActiveEvent(events, rule)
    {
      r := None;
      for i := 0 to |events|
        invariant r == ActiveEvent(events[..i], rule)
      {
        assert events[..i + 1][..i] == events[..i];
        if ActiveFor(events[i], rule) && (r.None? || events[r.value].firedAt <= events[i].firedAt) {
          r := Some(i);
        }
      }
      assert events[..|events|] == events;
    }

    ghost method Log(event: Option<nat>, now: Time, delivered: nat)
      modifies this`deliveries
      ensures State(events, deliveries) == Notified(old(Now()), event, now, delivered)
    {
      if delivered > 0 {
        deliveries := deliveries + [Delivery(event, now, delivered)];
      }
    }

    /** One evaluation of one rule. */
    method EvaluateRule(rule: Rule, reading: Option<real>, now: Time, delivered: nat, stored: bool) returns (ok: bool)
      modifies this
      ensures Now() == Step(old(Now()), Tick(rule, reading, now, delivered, stored))
      ensures "eval." <= rule.metric || reading.None? ==> Now() == old(Now())
      ensures var tick := Tick(rule, reading, now, delivered, stored);
              ok <==> "eval." <= rule.metric || (reading.Some? && (stored || !Writes(old(Now()), tick)))
      ensures !("eval." <= rule.metric) && reading.Some? && stored && old(OneActive(events)) ==>
                (HasActive(events, rule.id) <==>
                   || (rule.operator == ">" && reading.value > rule.threshold) || (rule.operator == ">=" && reading.value >= rule.threshold)
                   || (rule.operator == "<" && reading.value < rule.threshold) || (rule.operator == "<=" && reading.value <= rule.threshold))
    {
      hide OneActive, HasActive, IsBreached, ActiveEvent, ActiveFor;
      if !("eval." <= rule.metric) && reading.Some? && stored && OneActive(events) {
        ActiveExactlyWhenBreached(Now(), Tick(rule, reading, now, delivered, stored));
      }
      if IsEventDriven(rule.metric) {
        return true;
      }
      if reading.None? {
        return false;
      }
      var breached := IsBreached(rule.operator, reading.value, rule.threshold);
      var active := FindActive(rule.id);
      ok := true;
      if breached {
        if active.None? {
          Log(if stored then Some(|events|) else None, now, delivered);
          if !stored {
            return false;
          }
          events := events + [Event(rule.id, Firing, now, if delivered > 0 then Some(now) else None, delivered)];
        } else if events[active.value].status.Firing? {
          var event := events[active.value];
          if event.lastNotified.None? || now - event.lastNotified.value >= RENOTIFY {
            Log(active, now, delivered);
            if delivered > 0 {
              event := event.(lastNotified := Some(now), count := event.count + delivered);
            }
            if !stored {
              return false;
            }
            events := events[active.value := event];
          }
        }
      } else if active.Some? {
        if !stored {
          return false;
        }
        events := events[active.value := events[active.value].(status := Resolved)];
      }
    }

    method AcknowledgeAlert(event: nat) returns (found: bool)
      modifies this
      ensures Now() == Step(old(Now()), Acknowledge(event)) && (found <==> event < |old(events)|)
      ensures deliveries == old(deliveries)
      ensures if found then events == old(events)[event := old(events)[event].(status := Acknowledged)] else events == old(events)
    {
      found := event < |events|;
      if found {
        events := events[event := events[event].(status := Acknowledged)];
      }
    }

    method ResolveAlert(event: nat) returns (found: bool)
      modifies this
      ensures Now() == Step(old(Now()), Resolve(event)) && (found <==> event < |old(events)|)
      ensures deliveries == old(deliveries)
      ensures if found then events == old(events)[event := old(events)[event].(status := Resolved)] else events == old(events)
    {
      found := event < |events|;
      if found {
        events := events[event := events[event].(status := Resolved)];
      }
    }
  }
}
