/** One reconcile tick over all services: autoscaling, healing and rebalancing on one stabilizer and
    one guard (internal/app/reconciler/reconciler.go). */
module Reconciling {
  import opened Words
  import opened Options
  import opened Autoscaler
  import Stabilization
  import Guarding
  import ControlLoop

  /** The clock as the guard reads it, and Swarm's answer if it is asked. */
  datatype Gate = Gate(checkAt: int, recordAt: int, accepted: bool)

  /** One service in one tick.  `metric` is None when the service is not autoscaled or there is no
      reading; `heal` is Some when it has opted in and is found stuck. */
  datatype Observed = Observed(service: ServiceId, policy: Policy, replicated: bool, current: Word, metric: Option<real>,
                               now: int, gate: Gate, heal: Option<Gate>)

  /** One move of the rebalance plan. */
  datatype Move = Move(service: ServiceId, optedIn: bool, gate: Gate)

  datatype Config = Config(window: int, maxStep: Word, windows: Guarding.Windows, dryRun: bool)

  /** The recommendations of every service, the stamps, and the commands sent. */
  datatype Control = Control(samples: map<ServiceId, seq<Stabilization.Sample>>, guard: Guarding.GuardState)

  /** What a tick does, one after another. */
  datatype Act = Autoscale(o: Observed) | Force(r: Guarding.Request)

  /** Load is never negative; only heals and rebalances force an update. */
  predicate Sane(a: Act) {
    match a
    case Autoscale(o) => o.metric.Some? ==> o.metric.value >= 0.0
    case Force(r) => r.action.Heal? || r.action.Rebalance?
  }

  predicate HasMetric(o: Observed) {
    o.metric.Some? && o.metric.value >= 0.0
  }

  function CallOf(o: Observed): Stabilization.Call
    requires HasMetric(o)
  {
    Stabilization.Call(o.service, o.current, Desired(o.current, o.metric.value, o.policy), o.now)
  }

  function FinalOf(c: Control, o: Observed, cfg: Config): Word
    requires HasMetric(o)
  {
    ClampStep(o.current, Stabilization.Result(c.samples, cfg.window, CallOf(o)), cfg.maxStep)
  }

  function ScaleRequest(o: Observed, final: Word): Guarding.Request {
    Guarding.Request(o.service, Guarding.Scale(o.replicated, o.current, final), o.gate.checkAt, o.gate.recordAt, o.gate.accepted)
  }

  function HealRequest(service: ServiceId, g: Gate): Guarding.Request {
    Guarding.Request(service, Guarding.Heal, g.checkAt, g.recordAt, g.accepted)
  }

  function MoveRequest(m: Move): Guarding.Request {
    Guarding.Request(m.service, Guarding.Rebalance(m.optedIn), m.gate.checkAt, m.gate.recordAt, m.gate.accepted)
  }

  function Through(c: Control, r: Guarding.Request, cfg: Config): Control {
    c.(guard := Guarding.After(c.guard, cfg.windows, cfg.dryRun, r))
  }

  function Step(c: Control, a: Act, cfg: Config): Control
    requires Sane(a)
  {
    match a
    case Force(r) => Through(c, r, cfg)
    case Autoscale(o) =>
      if o.metric.None? then c
      else Through(c.(samples := Stabilization.After(c.samples, cfg.window, CallOf(o))),
                   ScaleRequest(o, FinalOf(c, o, cfg)), cfg)
  }

  predicate AllSane(acts: seq<Act>) {
    forall a :: a in acts ==> Sane(a)
  }

  function Steps(c: Control, acts: seq<Act>, cfg: Config): Control
    requires AllSane(acts)
  {
    if acts == [] then c else Step(Steps(c, acts[..|acts| - 1], cfg), acts[|acts| - 1], cfg)
  }

  lemma StepsAppend(c: Control, acts: seq<Act>, a: Act, cfg: Config)
    requires AllSane(acts) && Sane(a)
    ensures AllSane(acts + [a]) && Steps(c, acts + [a], cfg) == Step(Steps(c, acts, cfg), a, cfg)
  {
    assert (acts + [a])[..|acts|] == acts;
  }

  lemma SaneConcat(a: seq<Act>, b: seq<Act>)
    ensures AllSane(a + b) <==> AllSane(a) && AllSane(b)
  {
    assert forall x :: x in a + b <==> x in a || x in b;
  }

  lemma {:induction false} StepsConcat(c: Control, a: seq<Act>, b: seq<Act>, cfg: Config)
    requires AllSane(a) && AllSane(b) && AllSane(a + b)
    ensures Steps(c, a + b, cfg) == Steps(Steps(c, a, cfg), b, cfg)
  {
    if b == [] {
      assert a + b == a;
    } else {
      var front, last := b[..|b| - 1], b[|b| - 1];
      SaneConcat(a, front);
      StepsConcat(c, a, front, cfg);
      ControlLoop.SplitLast(a, b);
      StepsAppend(c, a + front, last, cfg);
    }
  }

  // ----- one tick -----

  function ServiceActs(o: Observed): seq<Act> {
    [Autoscale(o)] + if o.heal.Some? then [Force(HealRequest(o.service, o.heal.value))] else []
  }

  /** Service by service the scaling and the healing, then the moves. */
  function TickActs(obs: seq<Observed>, moves: seq<Move>): seq<Act> {
    if moves != [] then TickActs(obs, moves[..|moves| - 1]) + [Force(MoveRequest(moves[|moves| - 1]))]
    else if obs != [] then TickActs(obs[..|obs| - 1], []) + ServiceActs(obs[|obs| - 1])
    else []
  }

  predicate Plausible(obs: seq<Observed>) {
    forall o :: o in obs ==> Sane(Autoscale(o))
  }

  lemma {:induction false} TickIsSane(obs: seq<Observed>, moves: seq<Move>)
    requires Plausible(obs)
    ensures AllSane(TickActs(obs, moves))
  {
    if moves != [] {
      TickIsSane(obs, moves[..|moves| - 1]);
    } else if obs != [] {
      TickIsSane(obs[..|obs| - 1], []);
    }
  }

  class Reconciler {
    const stabilizer: Stabilization.Stabilizer
    const guard: Guarding.Guard
    const maxStep: Word

    constructor (stabilizer: Stabilization.Stabilizer, guard: Guarding.Guard, maxStep: Word)
      ensures this.stabilizer == stabilizer && this.guard == guard && this.maxStep == maxStep
    {
      this.stabilizer := stabilizer;
      this.guard := guard;
      this.maxStep := maxStep;
    }

    ghost function Settings(): Config {
      Config(stabilizer.window, maxStep, guard.windows, guard.dryRun)
    }

    ghost function State(): Control
      reads stabilizer, guard, guard.cooldown
    {
      Control(stabilizer.samples, guard.State())
    }

    /** The autoscaling branch for one service. */
    method Scale(o: Observed)
      requires stabilizer.Valid() && Sane(Autoscale(o))
      modifies stabilizer, stabilizer.Repr(), guard, guard.cooldown
      ensures stabilizer.Valid() && fresh(stabilizer.Repr() - old(stabilizer.Repr()))
      ensures State() == Step(old(State()), Autoscale(o), Settings())
    {
      if o.metric.Some? {
        var desired := Desired(o.current, o.metric.value, o.policy);
        var stabilized := stabilizer.Recommend(o.service, o.current, desired, o.now);
        var final := ClampStep(o.current, stabilized, maxStep);
        var outcome := guard.ScaleService(o.service, o.replicated, o.current, final,
                                          o.gate.checkAt, o.gate.recordAt, o.gate.accepted);
      }
    }

    /** The healing branch for one service. */
    method Heal(service: ServiceId, g: Gate)
      modifies guard, guard.cooldown
      ensures State() == Step(old(State()), Force(HealRequest(service, g)), Settings())
    {
      var outcome := guard.HealService(service, g.checkAt, g.recordAt, g.accepted);
    }

    method Rebalance(m: Move)
      modifies guard, guard.cooldown
      ensures State() == Step(old(State()), Force(MoveRequest(m)), Settings())
    {
      var outcome := guard.RebalanceService(m.service, m.optedIn, m.gate.checkAt, m.gate.recordAt, m.gate.accepted);
    }

    /** Both branches for one service. */
    method ObserveService(o: Observed)
      requires stabilizer.Valid() && Sane(Autoscale(o))
      modifies stabilizer, stabilizer.Repr(), guard, guard.cooldown
      ensures stabilizer.Valid() && fresh(stabilizer.Repr() - old(stabilizer.Repr()))
      ensures AllSane(ServiceActs(o)) && State() == Steps(old(State()), ServiceActs(o), Settings())
    {
      ghost var before := State();
      Scale(o);
      StepsAppend(before, [], Autoscale(o), Settings());
      assert [] + [Autoscale(o)] == [Autoscale(o)];
      if o.heal.Some? {
        Heal(o.service, o.heal.value);
        StepsAppend(before, [Autoscale(o)], Force(HealRequest(o.service, o.heal.value)), Settings());
      } else {
        assert ServiceActs(o) == [Autoscale(o)];
      }
    }

    method ObserveServices(obs: seq<Observed>)
      requires stabilizer.Valid() && Plausible(obs)
      modifies stabilizer, stabilizer.Repr(), guard, guard.cooldown
      ensures stabilizer.Valid() && fresh(stabilizer.Repr() - old(stabilizer.Repr()))
      ensures AllSane(TickActs(obs, [])) && State() == Steps(old(State()), TickActs(obs, []), Settings())
    {
      ghost var before := State();
      for i := 0 to |obs|
        invariant stabilizer.Valid() && fresh(stabilizer.Repr() - old(stabilizer.Repr()))
        invariant AllSane(TickActs(obs[..i], [])) && State() == Steps(before, TickActs(obs[..i], []), Settings())
      {
        ObserveService(obs[i]);
        assert obs[..i + 1][..i] == obs[..i];
        SaneConcat(TickActs(obs[..i], []), ServiceActs(obs[i]));
        StepsConcat(before, TickActs(obs[..i], []), ServiceActs(obs[i]), Settings());
      }
      assert obs[..|obs|] == obs;
    }

    /** One tick. */
    method Observe(obs: seq<Observed>, moves: seq<Move>)
      requires stabilizer.Valid() && Plausible(obs)
      modifies stabilizer, stabilizer.Repr(), guard, guard.cooldown
      ensures stabilizer.Valid() && fresh(stabilizer.Repr() - old(stabilizer.Repr()))
      ensures AllSane(TickActs(obs, moves)) && State() == Steps(old(State()), TickActs(obs, moves), Settings())
    {
      ghost var before := State();
      ObserveServices(obs);
      for i := 0 to |moves|
        invariant stabilizer.Valid() && fresh(stabilizer.Repr() - old(stabilizer.Repr()))
        invariant AllSane(TickActs(obs, moves[..i])) && State() == Steps(before, TickActs(obs, moves[..i]), Settings())
      {
        assert moves[..i + 1][..i] == moves[..i];
        Rebalance(moves[i]);
        StepsAppend(before, TickActs(obs, moves[..i]), Force(MoveRequest(moves[i])), Settings());
      }
      assert moves[..|moves|] == moves;
    }
  }

  // ----- what a tick is -----

  /** Where the acts of the i-th service begin: one act for each service before it, and one more
      for each that is healed. */
  function StartOf(obs: seq<Observed>, i: nat): nat
    requires i <= |obs|
  {
    if i == 0 then 0 else StartOf(obs, i - 1) + if obs[i - 1].heal.Some? then 2 else 1
  }

  lemma {:induction false} StartOfFront(obs: seq<Observed>, i: nat)
    requires i < |obs|
    ensures StartOf(obs[..|obs| - 1], i) == StartOf(obs, i)
  {
    if i > 0 { StartOfFront(obs, i - 1); }
  }

  /** The acts of one service: it is scaled, and then healed if it is found stuck. */
  predicate ActsAt(acts: seq<Act>, k: nat, o: Observed) {
    && k < |acts| && acts[k] == Autoscale(o)
    && (o.heal.Some? ==>
          && k + 1 < |acts|
          && acts[k + 1] == Force(Guarding.Request(o.service, Guarding.Heal, o.heal.value.checkAt, o.heal.value.recordAt,
                                                   o.heal.value.accepted)))
  }

  lemma ActsAtAppend(front: seq<Act>, more: seq<Act>, k: nat, o: Observed)
    requires ActsAt(front, k, o)
    ensures ActsAt(front + more, k, o)
  {
  }

  lemma LastActs(front: seq<Act>, o: Observed)
    ensures ActsAt(front + ServiceActs(o), |front|, o)
    ensures |ServiceActs(o)| == if o.heal.Some? then 2 else 1
  {
  }

  /** The act is the move. */
  predicate IsMove(a: Act, m: Move) {
    a == Force(Guarding.Request(m.service, Guarding.Rebalance(m.optedIn), m.gate.checkAt, m.gate.recordAt, m.gate.accepted))
  }

  lemma {:induction false} TickLength(obs: seq<Observed>, moves: seq<Move>)
    ensures |TickActs(obs, moves)| == StartOf(obs, |obs|) + |moves|
  {
    if moves != [] {
      TickLength(obs, moves[..|moves| - 1]);
    } else if obs != [] {
      var n := |obs| - 1;
      TickLength(obs[..n], []);
      StartOfFront(obs, n);
      LastActs(TickActs(obs[..n], []), obs[n]);
    }
  }

  lemma {:induction false} ServiceAt(obs: seq<Observed>, moves: seq<Move>, i: nat)
    requires i < |obs|
    ensures ActsAt(TickActs(obs, moves), StartOf(obs, i), obs[i])
  {
    if moves != [] {
      var n := |moves| - 1;
      ServiceAt(obs, moves[..n], i);
      ActsAtAppend(TickActs(obs, moves[..n]), [Force(MoveRequest(moves[n]))], StartOf(obs, i), obs[i]);
    } else {
      var n := |obs| - 1;
      var front := TickActs(obs[..n], []);
      StartOfFront(obs, i);
      if i < n {
        ServiceAt(obs[..n], [], i);
        ActsAtAppend(front, ServiceActs(obs[n]), StartOf(obs, i), obs[i]);
      } else {
        TickLength(obs[..n], []);
        LastActs(front, obs[n]);
      }
    }
  }

  lemma {:induction false} MoveAt(obs: seq<Observed>, moves: seq<Move>, j: nat)
    requires j < |moves|
    ensures |TickActs(obs, moves)| == StartOf(obs, |obs|) + |moves|
    ensures IsMove(TickActs(obs, moves)[StartOf(obs, |obs|) + j], moves[j])
  {
    var n := |moves| - 1;
    TickLength(obs, moves);
    TickLength(obs, moves[..n]);
    if j < n { MoveAt(obs, moves[..n], j); }
  }

  /** A tick, act by act: first the services in order, each scaled before it is healed. */
  lemma ServicesFirst(obs: seq<Observed>, moves: seq<Move>)
    ensures forall i :: 0 <= i < |obs| ==> ActsAt(TickActs(obs, moves), StartOf(obs, i), obs[i])
  {
    forall i | 0 <= i < |obs| ensures ActsAt(TickActs(obs, moves), StartOf(obs, i), obs[i]) { ServiceAt(obs, moves, i); }
  }

  /** Then the moves, and nothing else. */
  lemma MovesLast(obs: seq<Observed>, moves: seq<Move>)
    ensures |TickActs(obs, moves)| == StartOf(obs, |obs|) + |moves|
    ensures forall j :: 0 <= j < |moves| ==> IsMove(TickActs(obs, moves)[StartOf(obs, |obs|) + j], moves[j])
  {
    TickLength(obs, moves);
    forall j | 0 <= j < |moves| ensures IsMove(TickActs(obs, moves)[StartOf(obs, |obs|) + j], moves[j]) { MoveAt(obs, moves, j); }
  }

  /** The recommendations a run has asked the stabilizer for. */
  function CallsOf(acts: seq<Act>): seq<Stabilization.Call>
    requires AllSane(acts)
  {
    if acts == [] then []
    else
      var front, a := CallsOf(acts[..|acts| - 1]), acts[|acts| - 1];
      assert a in acts;
      if Measured(a) then front + [CallOf(a.o)] else front
  }

  lemma {:induction false} SamplesAreCalls(acts: seq<Act>, cfg: Config)
    requires AllSane(acts)
    ensures Run(acts, cfg).samples == Stabilization.Run(CallsOf(acts), cfg.window)
  {
    if acts != [] {
      var front, a := acts[..|acts| - 1], acts[|acts| - 1];
      assert a in acts && Sane(a);
      SamplesAreCalls(front, cfg);
      if Measured(a) {
        var calls := CallsOf(acts);
        assert calls[..|calls| - 1] == CallsOf(front);
      }
    }
  }

  /** The count the guard is asked for: from the current one towards what the stabilizer holds the
      recommendation at, by at most the step limit. */
  predicate Asked(o: Observed, desired: Word, largest: Word, cfg: Config, n: Word) {
    var stabilized := if cfg.window <= 0 || desired >= o.current then desired
                      else if largest < o.current then largest else o.current;
    var distance := Distance(o.current, stabilized);
    && Between(o.current, n, stabilized)
    && Distance(o.current, n) == if cfg.maxStep == 0 || distance <= cfg.maxStep then distance else cfg.maxStep
  }

  /** Scaling one service after any run: the recommendation is the proportional rule's, the largest
      one is taken over all acts of the run in its window, and the guard is asked for the count. */
  lemma ScalingMeans(acts: seq<Act>, o: Observed, cfg: Config) returns (largest: Word, n: Word)
    requires AllSane(acts) && HasMetric(o)
    requires forall c :: c in CallsOf(acts) && c.service == o.service ==> c.now <= o.now
    ensures var desired := Desired(o.current, o.metric.value, o.policy);
            && Stabilization.IsLargest(CallsOf(acts), Stabilization.Call(o.service, o.current, desired, o.now), cfg.window, largest)
            && Asked(o, desired, largest, cfg, n)
    ensures Step(Run(acts, cfg), Autoscale(o), cfg).guard
              == Guarding.After(Run(acts, cfg).guard, cfg.windows, cfg.dryRun,
                                Guarding.Request(o.service, Guarding.Scale(o.replicated, o.current, n), o.gate.checkAt,
                                                 o.gate.recordAt, o.gate.accepted))
  {
    n := FinalOf(Run(acts, cfg), o, cfg);
    SamplesAreCalls(acts, cfg);
    largest := Stabilization.RecommendMeans(CallsOf(acts), CallOf(o), cfg.window);
    StepIsAsked(o, CallOf(o).desired, largest, cfg);
    ScalingStep(Run(acts, cfg), o, cfg);
  }

  lemma StepIsAsked(o: Observed, desired: Word, largest: Word, cfg: Config)
    ensures var stabilized := if cfg.window <= 0 || desired >= o.current then desired
                              else if largest < o.current then largest else o.current;
            Asked(o, desired, largest, cfg, ClampStep(o.current, stabilized, cfg.maxStep))
  {
    var stabilized := if cfg.window <= 0 || desired >= o.current then desired
                      else if largest < o.current then largest else o.current;
    ClampStepExact(o.current, stabilized, cfg.maxStep);
  }

  lemma ScalingStep(c: Control, o: Observed, cfg: Config)
    requires HasMetric(o)
    ensures Step(c, Autoscale(o), cfg).guard == Guarding.After(c.guard, cfg.windows, cfg.dryRun, ScaleRequest(o, FinalOf(c, o, cfg)))
  {
  }

  /** Without a reading nothing happens; a heal or move goes to the guard and leaves the history. */
  lemma OtherwiseMeans(c: Control, a: Act, cfg: Config)
    requires Sane(a) && !Measured(a)
    ensures Step(c, a, cfg).samples == c.samples
    ensures Step(c, a, cfg).guard == if a.Force? then Guarding.After(c.guard, cfg.windows, cfg.dryRun, a.r) else c.guard
  {
  }

  /** A scaling that leaves a stamp holds back the heal of the same tick while its window runs. */
  lemma ScalingHoldsHealing(c: Control, o: Observed, cfg: Config)
    requires HasMetric(o) && o.heal.Some? && AllSane(ServiceActs(o))
    requires var last := Step(c, Autoscale(o), cfg).guard.last;
             o.service in last && last[o.service] == o.gate.recordAt && o.heal.value.checkAt - o.gate.recordAt < cfg.windows.heal
    requires cfg.windows.heal > 0
    ensures Steps(c, ServiceActs(o), cfg) == Step(c, Autoscale(o), cfg)
  {
    var acts := ServiceActs(o);
    assert acts[..1] == [Autoscale(o)] && acts[..1][..0] == [];
    assert Steps(c, acts[..1], cfg) == Step(c, Autoscale(o), cfg);
    Guarding.ForceMeans(Step(c, Autoscale(o), cfg).guard, cfg.windows, cfg.dryRun, HealRequest(o.service, o.heal.value));
  }

  // ----- every command of every run -----

  function Start(): Control {
    Control(map[], Guarding.GuardState(map[], []))
  }

  /** Ticks one after another are one run of acts. */
  function Run(acts: seq<Act>, cfg: Config): Control
    requires AllSane(acts)
  {
    Steps(Start(), acts, cfg)
  }

  predicate Follows(o: Observed, policies: map<ServiceId, Policy>) {
    o.service in policies && o.policy == policies[o.service] && o.policy.Valid()
  }

  /** Each service that is autoscaled keeps one valid policy; the others need none. */
  predicate FixedPolicies(acts: seq<Act>, policies: map<ServiceId, Policy>) {
    AllSane(acts) && forall a :: a in acts && Measured(a) ==> Follows(a.o, policies)
  }

  /** The act has a reading to decide on. */
  predicate Measured(a: Act) {
    a.Autoscale? && a.o.metric.Some?
  }

  /** The count stays inside the policy's interval, or comes nearer to it by the step limit
      without passing it. */
  predicate Towards(o: Observed, count: Word, maxStep: Word)
    requires o.policy.Valid()
  {
    var before, after := ControlLoop.Gap(o.current, o.policy), ControlLoop.Gap(count, o.policy);
    after == if maxStep == 0 || before <= maxStep then 0 else before - maxStep
  }

  ghost predicate SamplesInside(samples: map<ServiceId, seq<Stabilization.Sample>>, policies: map<ServiceId, Policy>) {
    forall s :: s in samples ==> s in policies && ControlLoop.AllInside(samples[s], policies[s])
  }

  lemma NextInside(h: seq<Stabilization.Sample>, window: int, desired: Word, now: int, p: Policy)
    requires ControlLoop.AllInside(h, p) && ControlLoop.Inside(desired, p)
    ensures ControlLoop.AllInside(Stabilization.Next(h, window, desired, now), p)
  {
    Stabilization.KeptMembers(h, now - window);
  }

  lemma LookupInside(c: Control, o: Observed, policies: map<ServiceId, Policy>)
    requires Follows(o, policies) && SamplesInside(c.samples, policies)
    ensures ControlLoop.AllInside(Stabilization.Lookup(c.samples, o.service), o.policy)
  {
  }

  lemma StepKeepsSamples(c: Control, o: Observed, cfg: Config, policies: map<ServiceId, Policy>)
    requires HasMetric(o) && Follows(o, policies) && SamplesInside(c.samples, policies)
    ensures SamplesInside(Stabilization.After(c.samples, cfg.window, CallOf(o)), policies)
  {
    DesiredInBounds(o.current, o.metric.value, o.policy);
    LookupInside(c, o, policies);
    NextInside(Stabilization.Lookup(c.samples, o.service), cfg.window, CallOf(o).desired, o.now, o.policy);
  }

  lemma AnswerInside(h: seq<Stabilization.Sample>, window: int, current: Word, desired: Word, p: Policy)
    requires ControlLoop.AllInside(h, p) && ControlLoop.Inside(desired, p)
    ensures var r := Stabilization.Answer(h, window, current, desired);
            ControlLoop.Inside(r, p) || (r == current && desired < current)
  {
    ControlLoop.MaxRecRange(h, p.min, p.max, desired);
  }

  lemma AnswerNotAbove(h: seq<Stabilization.Sample>, window: int, current: Word, desired: Word, p: Policy)
    requires ControlLoop.AllInside(h, p) && ControlLoop.Inside(desired, p)
    ensures Stabilization.Answer(h, window, current, desired) <= p.max
  {
    ControlLoop.MaxRecRange(h, p.min, p.max, desired);
  }

  lemma StepTowards(o: Observed, stabilized: Word, maxStep: Word)
    requires o.policy.Valid() && ControlLoop.Inside(stabilized, o.policy)
    ensures Towards(o, ClampStep(o.current, stabilized, maxStep), maxStep)
  {
    ClampStepExact(o.current, stabilized, maxStep);
  }

  lemma FinalIsBounded(c: Control, o: Observed, cfg: Config, policies: map<ServiceId, Policy>)
    requires HasMetric(o) && Follows(o, policies) && SamplesInside(c.samples, policies)
    ensures Towards(o, FinalOf(c, o, cfg), cfg.maxStep)
  {
    var h, desired := Stabilization.Lookup(c.samples, o.service), CallOf(o).desired;
    DesiredInBounds(o.current, o.metric.value, o.policy);
    LookupInside(c, o, policies);
    NextInside(h, cfg.window, desired, o.now, o.policy);
    var next := Stabilization.Next(h, cfg.window, desired, o.now);
    AnswerInside(next, cfg.window, o.current, desired, o.policy);
    AnswerNotAbove(next, cfg.window, o.current, desired, o.policy);
    StepTowards(o, Stabilization.Result(c.samples, cfg.window, CallOf(o)), cfg.maxStep);
  }

  lemma {:induction false} RunKeepsSamples(acts: seq<Act>, cfg: Config, policies: map<ServiceId, Policy>)
    requires FixedPolicies(acts, policies)
    ensures SamplesInside(Run(acts, cfg).samples, policies)
  {
    if acts != [] {
      var front, a := acts[..|acts| - 1], acts[|acts| - 1];
      assert a in acts && Sane(a);
      RunKeepsSamples(front, cfg, policies);
      if Measured(a) { StepKeepsSamples(Run(front, cfg), a.o, cfg, policies); }
    }
  }

  /** The act sent the command, and rightly: a scale is for a replicated service, from its own
      observation, to inside the bounds or towards them; a forced update is a heal, or a rebalance
      of a service that has opted in. */
  predicate Justifies(a: Act, command: Guarding.Command, maxStep: Word) {
    match a
    case Autoscale(o) =>
      && HasMetric(o) && o.policy.Valid() && o.replicated
      && command.SetReplicas? && command.service == o.service && command.replicas != o.current
      && Towards(o, command.replicas, maxStep)
    case Force(r) =>
      && command.ForceUpdate? && command.service == r.service
      && (r.action.Heal? || (r.action.Rebalance? && r.action.optedIn))
  }

  /** A step sends at most one command, and only one that it justifies. */
  lemma StepSendsJustified(c: Control, a: Act, cfg: Config, policies: map<ServiceId, Policy>)
    requires Sane(a) && SamplesInside(c.samples, policies) && (Measured(a) ==> Follows(a.o, policies))
    ensures var before, after := c.guard.sent, Step(c, a, cfg).guard.sent;
            after == before || (after == before + [after[|after| - 1]] && Justifies(a, after[|after| - 1], cfg.maxStep))
  {
    if Measured(a) { FinalIsBounded(c, a.o, cfg, policies); }
  }

  /** Over any run of ticks over any services, scaling, healing and rebalancing mixed: every command
      Swarm receives is justified by the act that sent it, whatever the other services did in
      between. */
  lemma {:induction false} EveryCommandIsJustified(acts: seq<Act>, cfg: Config, policies: map<ServiceId, Policy>, k: nat)
      returns (i: nat)
    requires FixedPolicies(acts, policies) && k < |Run(acts, cfg).guard.sent|
    ensures i < |acts| && Justifies(acts[i], Run(acts, cfg).guard.sent[k], cfg.maxStep)
  {
    var front, a := acts[..|acts| - 1], acts[|acts| - 1];
    var before := Run(front, cfg);
    assert a in acts && Sane(a);
    RunKeepsSamples(front, cfg, policies);
    StepSendsJustified(before, a, cfg, policies);
    if k < |before.guard.sent| {
      i := EveryCommandIsJustified(front, cfg, policies, k);
    } else {
      i := |acts| - 1;
    }
  }
}
