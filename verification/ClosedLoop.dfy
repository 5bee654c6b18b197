/** One service under constant load with the guard in the loop, and with the heals and moves that share
    its stamp (internal/app/reconciler/reconciler.go, guard.go). */
module ClosedLoop {
  import opened Words
  import opened Options
  import opened Autoscaler
  import Stabilization
  import Guarding
  import ControlLoop
  import Reconciling

  /** What happens one after another: a tick's scaling of the service, and heals and moves of any. */
  datatype Event =
    | Scaling(now: int, gate: Reconciling.Gate)
    | Healing(service: ServiceId, gate: Reconciling.Gate)
    | Moving(m: Reconciling.Move)
  {
    function At(): Reconciling.Gate {
      if Moving? then m.gate else gate
    }

    function Forced(): Guarding.Request
      requires !Scaling?
    {
      if Healing? then Reconciling.HealRequest(service, gate) else Reconciling.MoveRequest(m)
    }
  }

  datatype Loop = Loop(replicas: Word, control: Reconciling.Control)

  datatype Setting = Setting(service: ServiceId, policy: Policy, load: real, cfg: Reconciling.Config)
  {
    predicate Valid() {
      policy.Valid() && load >= 0.0
    }

    function Config(): ControlLoop.Config {
      ControlLoop.Config(policy, cfg.window, cfg.maxStep)
    }
  }

  /** Without replicas there is no metric. */
  function Observe(st: Setting, replicas: Word, now: int, gate: Reconciling.Gate): Reconciling.Observed {
    Reconciling.Observed(st.service, st.policy, true, replicas, if replicas == 0 then None else Some(Share(st.load, replicas)),
                         now, gate, None)
  }

  lemma ObservedIsSane(st: Setting, replicas: Word, now: int, gate: Reconciling.Gate)
    requires st.Valid()
    ensures Reconciling.Sane(Reconciling.Autoscale(Observe(st, replicas, now, gate)))
  {
    if replicas > 0 { ControlLoop.ShareNatural(st.load, replicas); }
  }

  /** The count is the last one commanded, unless Swarm refused it. */
  function Step(st: Setting, l: Loop, e: Event): Loop
    requires st.Valid()
  {
    if !e.Scaling? then l.(control := Reconciling.Step(l.control, Reconciling.Force(e.Forced()), st.cfg))
    else
      ObservedIsSane(st, l.replicas, e.now, e.gate);
      var next := Reconciling.Step(l.control, Reconciling.Autoscale(Observe(st, l.replicas, e.now, e.gate)), st.cfg);
      var sent := next.guard.sent;
      var commanded := |sent| > |l.control.guard.sent| && sent[|sent| - 1].SetReplicas? && e.gate.accepted;
      Loop(if commanded then sent[|sent| - 1].replicas else l.replicas, next)
  }

  /** After the first m events. */
  function RunTo(st: Setting, l: Loop, events: seq<Event>, m: nat): Loop
    requires st.Valid() && m <= |events|
  {
    if m == 0 then l else Step(st, RunTo(st, l, events, m - 1), events[m - 1])
  }

  /** The loop as ControlLoop sees it. */
  function Abstract(st: Setting, l: Loop): ControlLoop.State {
    ControlLoop.State(l.replicas, Stabilization.Lookup(l.control.samples, st.service))
  }

  // ----- what the guard lets through -----

  function Decided(st: Setting, l: Loop, e: Event): Guarding.Outcome
    requires st.Valid() && e.Scaling? && l.replicas > 0
  {
    ObservedIsSane(st, l.replicas, e.now, e.gate);
    var o := Observe(st, l.replicas, e.now, e.gate);
    Guarding.Decide(l.control.guard, st.cfg.windows, st.cfg.dryRun,
                    Reconciling.ScaleRequest(o, Reconciling.FinalOf(l.control, o, st.cfg)))
  }

  /** What was decided is what the service has afterwards. */
  predicate Applies(st: Setting, l: Loop, e: Event)
    requires st.Valid() && e.Scaling?
  {
    l.replicas == 0 || Decided(st, l, e).Skip? || Decided(st, l, e).Applied?
  }

  /** The ticks among the first m events, as ControlLoop sees them. */
  function TicksTo(st: Setting, l: Loop, events: seq<Event>, m: nat): seq<ControlLoop.Tick>
    requires st.Valid() && m <= |events|
  {
    if m == 0 then []
    else
      var e, front := events[m - 1], TicksTo(st, l, events, m - 1);
      if e.Scaling? then front + [ControlLoop.Tick(e.now, Applies(st, RunTo(st, l, events, m - 1), e))] else front
  }

  /** The decision, and the history it leaves, are those of ControlLoop. */
  lemma DecisionMatches(st: Setting, l: Loop, now: int, gate: Reconciling.Gate, applied: bool)
    requires st.Valid() && l.replicas > 0
    ensures Reconciling.HasMetric(Observe(st, l.replicas, now, gate))
    ensures var o := Observe(st, l.replicas, now, gate);
            var next := ControlLoop.Step(Abstract(st, l), st.load, st.Config(), ControlLoop.Tick(now, applied));
            && next.replicas == (if applied then Reconciling.FinalOf(l.control, o, st.cfg) else l.replicas)
            && Stabilization.Lookup(Stabilization.After(l.control.samples, st.cfg.window, Reconciling.CallOf(o)), st.service)
                 == next.history
  {
    ObservedIsSane(st, l.replicas, now, gate);
    assert Reconciling.CallOf(Observe(st, l.replicas, now, gate)).desired == ControlLoop.Wanted(l.replicas, st.load, st.policy);
  }

  /** What a scale request leaves: the command, and the stamp. */
  lemma RequestLeaves(g: Guarding.GuardState, cfg: Reconciling.Config, r: Guarding.Request)
    ensures var o, after := Guarding.Decide(g, cfg.windows, cfg.dryRun, r), Guarding.After(g, cfg.windows, cfg.dryRun, r);
            && after.last == (if o.Stamped() then g.last[r.service := r.recordAt] else g.last)
            && after.sent == (if o.Applied? || o.Failed? then g.sent + [Guarding.CommandOf(r)] else g.sent)
  {
  }

  lemma TickMatches(st: Setting, l: Loop, e: Event)
    requires st.Valid() && e.Scaling?
    ensures Abstract(st, Step(st, l, e))
              == ControlLoop.Step(Abstract(st, l), st.load, st.Config(), ControlLoop.Tick(e.now, Applies(st, l, e)))
    ensures Step(st, l, e).control.guard.last
              == if l.replicas > 0 && Decided(st, l, e).Stamped() then l.control.guard.last[st.service := e.gate.recordAt]
                 else l.control.guard.last
  {
    if l.replicas > 0 {
      var o := Observe(st, l.replicas, e.now, e.gate);
      DecisionMatches(st, l, e.now, e.gate, Applies(st, l, e));
      RequestLeaves(l.control.guard, st.cfg, Reconciling.ScaleRequest(o, Reconciling.FinalOf(l.control, o, st.cfg)));
    }
  }

  /** Any run with the guard, with heals and moves in between, is a run of ControlLoop in which
      exactly those ticks are applied that the guard let through and Swarm accepted. */
  lemma {:induction false} GuardedRunIsControlled(st: Setting, l: Loop, events: seq<Event>, m: nat)
    requires st.Valid() && m <= |events|
    ensures Abstract(st, RunTo(st, l, events, m))
              == ControlLoop.Run(Abstract(st, l), st.load, st.Config(), TicksTo(st, l, events, m))
  {
    if m > 0 {
      var e, mid := events[m - 1], RunTo(st, l, events, m - 1);
      GuardedRunIsControlled(st, l, events, m - 1);
      if e.Scaling? {
        TickMatches(st, mid, e);
        var front, t := TicksTo(st, l, events, m - 1), ControlLoop.Tick(e.now, Applies(st, mid, e));
        assert (front + [t])[..|front|] == front;
      }
    }
  }

  // ----- what keeps ticks from being applied -----

  /** Both scale cooldowns have passed. */
  predicate Passed(w: Guarding.Windows, stamp: int, checkAt: int) {
    checkAt - stamp >= w.scaleUp && checkAt - stamp >= w.scaleDown
  }

  /** The events follow the clock, and the stamp the run begins with is not in the future. */
  predicate InOrder(st: Setting, l: Loop, events: seq<Event>) {
    && (forall i :: 0 <= i < |events| ==> events[i].At().checkAt <= events[i].At().recordAt)
    && (forall i, j :: 0 <= i < j < |events| ==> events[i].At().recordAt <= events[j].At().checkAt)
    && (st.service in l.control.guard.last ==>
          forall i :: 0 <= i < |events| ==> l.control.guard.last[st.service] <= events[i].At().checkAt)
  }

  /** Each tick comes after the scale cooldowns of the ticks before. */
  predicate Spaced(st: Setting, events: seq<Event>) {
    forall i, j :: 0 <= i < j < |events| && events[i].Scaling? && events[j].Scaling? ==>
      Passed(st.cfg.windows, events[i].gate.recordAt, events[j].gate.checkAt)
  }

  /** The stamp holds none of the ticks from the m-th event on. */
  predicate Clear(st: Setting, last: map<ServiceId, int>, events: seq<Event>, m: nat) {
    st.service in last ==>
      forall j :: m <= j < |events| && events[j].Scaling? ==> Passed(st.cfg.windows, last[st.service], events[j].gate.checkAt)
  }

  predicate Past(st: Setting, last: map<ServiceId, int>, events: seq<Event>, m: nat) {
    st.service in last ==> forall j :: m <= j < |events| ==> last[st.service] <= events[j].At().checkAt
  }

  function ScalingsTo(events: seq<Event>, m: nat): nat
    requires m <= |events|
  {
    if m == 0 then 0 else ScalingsTo(events, m - 1) + if events[m - 1].Scaling? then 1 else 0
  }

  /** The ticks whose decision was not applied. */
  function MissedTo(st: Setting, l: Loop, events: seq<Event>, m: nat): nat
    requires st.Valid() && m <= |events|
  {
    if m == 0 then 0
    else MissedTo(st, l, events, m - 1)
         + if events[m - 1].Scaling? && !Applies(st, RunTo(st, l, events, m - 1), events[m - 1]) then 1 else 0
  }

  /** A heal or move of the service, or an update of it that Swarm refuses. */
  predicate Hinders(st: Setting, e: Event) {
    if e.Scaling? then !e.gate.accepted else e.Forced().service == st.service
  }

  function HindrancesTo(st: Setting, events: seq<Event>, m: nat): nat
    requires m <= |events|
  {
    if m == 0 then 0 else HindrancesTo(st, events, m - 1) + if Hinders(st, events[m - 1]) then 1 else 0
  }

  function LastAt(st: Setting, l: Loop, events: seq<Event>, m: nat): map<ServiceId, int>
    requires st.Valid() && m <= |events|
  {
    RunTo(st, l, events, m).control.guard.last
  }

  /** An event sets the stamp to its own time or leaves it. */
  lemma StampMoves(st: Setting, l: Loop, e: Event)
    requires st.Valid()
    ensures var before, after := Get(l.control.guard.last, st.service), Get(Step(st, l, e).control.guard.last, st.service);
            after == before || (after == Some(e.At().recordAt) && (!e.Scaling? ==> Hinders(st, e)))
  {
    if e.Scaling? { TickMatches(st, l, e); } else { RequestLeaves(l.control.guard, st.cfg, e.Forced()); }
  }

  lemma {:induction false} StampIsPast(st: Setting, l: Loop, events: seq<Event>, m: nat)
    requires st.Valid() && m <= |events| && InOrder(st, l, events)
    ensures Past(st, LastAt(st, l, events, m), events, m)
  {
    if m > 0 {
      StampIsPast(st, l, events, m - 1);
      StampMoves(st, RunTo(st, l, events, m - 1), events[m - 1]);
      var before, after := LastAt(st, l, events, m - 1), LastAt(st, l, events, m);
      assert Get(after, st.service) == Get(before, st.service) || Get(after, st.service) == Some(events[m - 1].At().recordAt);
    }
  }

  /** A tick the stamp does not hold is applied unless Swarm refuses it. */
  lemma ClearIsApplied(st: Setting, l: Loop, e: Event)
    requires st.Valid() && !st.cfg.dryRun && e.Scaling? && !Applies(st, l, e)
    requires st.service in l.control.guard.last ==> Passed(st.cfg.windows, l.control.guard.last[st.service], e.gate.checkAt)
    ensures !e.gate.accepted
  {
  }

  /** After a tick the stamp is no later than that tick, so it holds none of those that follow. */
  lemma TickClears(st: Setting, before: map<ServiceId, int>, after: map<ServiceId, int>, events: seq<Event>, m: nat)
    requires m < |events| && events[m].Scaling? && Spaced(st, events)
    requires events[m].gate.checkAt <= events[m].gate.recordAt && Past(st, before, events, m)
    requires Get(after, st.service) == Get(before, st.service) || Get(after, st.service) == Some(events[m].gate.recordAt)
    ensures Clear(st, after, events, m + 1)
  {
    if st.service in after {
      assert after[st.service] <= events[m].gate.recordAt;
      forall j | m + 1 <= j < |events| && events[j].Scaling?
        ensures Passed(st.cfg.windows, after[st.service], events[j].gate.checkAt)
      {
        assert Passed(st.cfg.windows, events[m].gate.recordAt, events[j].gate.checkAt);
      }
    }
  }

  /** One event: what it misses and whether it leaves the stamp in the way. */
  lemma EventHinders(st: Setting, l: Loop, events: seq<Event>, m: nat)
    requires st.Valid() && !st.cfg.dryRun && m < |events| && InOrder(st, l, events) && Spaced(st, events)
    ensures var e, mid := events[m], RunTo(st, l, events, m);
            var missed := if e.Scaling? && !Applies(st, mid, e) then 1 else 0;
            var held := if Clear(st, LastAt(st, l, events, m), events, m) then 0 else 1;
            var holds := if Clear(st, LastAt(st, l, events, m + 1), events, m + 1) then 0 else 1;
            missed + holds <= held + if Hinders(st, e) then 1 else 0
  {
    var e, mid := events[m], RunTo(st, l, events, m);
    var before, after := LastAt(st, l, events, m), LastAt(st, l, events, m + 1);
    StampIsPast(st, l, events, m);
    StampMoves(st, mid, e);
    assert after == Step(st, mid, e).control.guard.last;
    if e.Scaling? {
      TickClears(st, before, after, events, m);
      if Clear(st, before, events, m) && !Applies(st, mid, e) { ClearIsApplied(st, mid, e); }
    } else if !Hinders(st, e) {
      assert Get(after, st.service) == Get(before, st.service);
    }
  }

  /** Each heal or move of the service, each refused update, and the stamp the run begins with if it
      is in the way, keeps at most one tick from being applied. */
  lemma {:induction false} MissedAreHindered(st: Setting, l: Loop, events: seq<Event>, m: nat)
    requires st.Valid() && !st.cfg.dryRun && m <= |events| && InOrder(st, l, events) && Spaced(st, events)
    ensures MissedTo(st, l, events, m) + (if Clear(st, LastAt(st, l, events, m), events, m) then 0 else 1)
              <= HindrancesTo(st, events, m) + if Clear(st, l.control.guard.last, events, 0) then 0 else 1
  {
    if m > 0 {
      MissedAreHindered(st, l, events, m - 1);
      EventHinders(st, l, events, m - 1);
    }
  }

  /** With none of these every decision is applied, on any clock that spaces the ticks. */
  lemma {:induction false} EveryTickIsApplied(st: Setting, l: Loop, events: seq<Event>, m: nat)
    requires st.Valid() && !st.cfg.dryRun && m <= |events| && Spaced(st, events)
    requires Clear(st, l.control.guard.last, events, 0) && HindrancesTo(st, events, m) == 0
    ensures MissedTo(st, l, events, m) == 0 && Clear(st, LastAt(st, l, events, m), events, m)
  {
    if m > 0 {
      var e, mid := events[m - 1], RunTo(st, l, events, m - 1);
      EveryTickIsApplied(st, l, events, m - 1);
      StampMoves(st, mid, e);
      if e.Scaling? && !Applies(st, mid, e) { ClearIsApplied(st, mid, e); }
      var before, after := LastAt(st, l, events, m - 1), LastAt(st, l, events, m);
      assert Get(after, st.service) == Get(before, st.service) || (e.Scaling? && Get(after, st.service) == Some(e.gate.recordAt));
    }
  }

  // ----- convergence -----

  /** All ticks come after the samples from before the run have left the window. */
  predicate AllLate(events: seq<Event>, t0: int, window: int) {
    forall i :: 0 <= i < |events| && events[i].Scaling? ==> window <= 0 || events[i].now - window > t0
  }

  lemma {:induction false} LateAreCounted(st: Setting, l: Loop, events: seq<Event>, t0: int, m: nat)
    requires st.Valid() && m <= |events| && AllLate(events, t0, st.cfg.window)
    ensures ControlLoop.LateApplied(TicksTo(st, l, events, m), t0, st.cfg.window) + MissedTo(st, l, events, m)
              == ScalingsTo(events, m)
  {
    if m > 0 {
      LateAreCounted(st, l, events, t0, m - 1);
      var front := TicksTo(st, l, events, m - 1);
      if events[m - 1].Scaling? {
        assert TicksTo(st, l, events, m)[..|front|] == front;
      }
    }
  }

  /** Under constant load, with ticks spaced by the scale cooldowns, the service is settled after as
      many ticks as the first decision is away from its count, and one more for each heal or move of
      it, for each refused update, and for a stamp that is in the way at the beginning. */
  lemma GuardedLoopConverges(st: Setting, l: Loop, events: seq<Event>, t0: int)
    requires st.Valid() && !st.cfg.dryRun && InOrder(st, l, events) && Spaced(st, events) && AllLate(events, t0, st.cfg.window)
    requires forall s :: s in Stabilization.Lookup(l.control.samples, st.service) ==> s.at <= t0
    requires ScalingsTo(events, |events|)
               >= Distance(l.replicas, ControlLoop.Wanted(l.replicas, st.load, st.policy)) + HindrancesTo(st, events, |events|)
                  + if Clear(st, l.control.guard.last, events, 0) then 0 else 1
    ensures ControlLoop.Settled(RunTo(st, l, events, |events|).replicas, st.load, st.policy)
  {
    var n := |events|;
    GuardedRunIsControlled(st, l, events, n);
    MissedAreHindered(st, l, events, n);
    LateAreCounted(st, l, events, t0, n);
    ControlLoop.LoopConverges(Abstract(st, l), t0, st.load, st.Config(), TicksTo(st, l, events, n));
  }
}
