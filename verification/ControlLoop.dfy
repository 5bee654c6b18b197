/** The decision pipeline of one reconcile tick (internal/app/reconciler/reconciler.go):
    Desired, then the stabilizer, then ClampStep, then the guard.  One service at a time;
    Stabilization.ServicesAreIndependent justifies that. */
module ControlLoop {
  import opened Words
  import opened Autoscaler
  import opened Stabilization

  datatype Config = Config(policy: Policy, window: int, maxStep: Word)

  // ----- any environment: bounds -----

  /** One tick with metric data: what Swarm and the metrics provider reported. */
  datatype Reading = Reading(current: Word, value: real, now: int)

  predicate Sane(readings: seq<Reading>) {
    forall i :: 0 <= i < |readings| ==> readings[i].value >= 0.0
  }

  function History(readings: seq<Reading>, cfg: Config): seq<Sample>
    requires Sane(readings)
  {
    if readings == [] then []
    else
      var r := readings[|readings| - 1];
      Next(History(readings[..|readings| - 1], cfg), cfg.window, Desired(r.current, r.value, cfg.policy), r.now)
  }

  function Stabilized(h: seq<Sample>, r: Reading, cfg: Config): Word
    requires r.value >= 0.0
  {
    var desired := Desired(r.current, r.value, cfg.policy);
    Answer(Next(h, cfg.window, desired, r.now), cfg.window, r.current, desired)
  }

  function Final(h: seq<Sample>, r: Reading, cfg: Config): Word
    requires r.value >= 0.0
  {
    ClampStep(r.current, Stabilized(h, r, cfg), cfg.maxStep)
  }

  predicate Inside(x: int, p: Policy) {
    p.min <= x <= p.max
  }

  predicate AllInside(h: seq<Sample>, p: Policy) {
    forall i :: 0 <= i < |h| ==> Inside(h[i].rec, p)
  }

  /** How far a count is from the policy's interval. */
  function Gap(x: int, p: Policy): nat
    requires p.Valid()
  {
    if x < p.min then p.min - x else if x > p.max then x - p.max else 0
  }

  lemma {:induction false} MaxRecRange(h: seq<Sample>, lo: int, hi: int, floor: Word)
    requires lo <= floor <= hi && forall e :: e in h ==> e.rec <= hi
    ensures lo <= floor <= MaxRec(h, floor) <= hi
  {
    if h != [] { MaxRecRange(h[..|h| - 1], lo, hi, floor); }
  }

  /** The stabilized value lies between the recommendation and the current count, whatever the
      history holds. */
  lemma AnswerBetween(h: seq<Sample>, window: int, current: Word, desired: Word)
    ensures Between(desired, Answer(h, window, current, desired), current)
    ensures desired >= current ==> Answer(h, window, current, desired) == desired
  {
    MaxRecAtLeast(h, desired);
  }

  /** Every recommendation ever stored is inside the policy's bounds. */
  lemma {:induction false} HistoryInside(readings: seq<Reading>, cfg: Config)
    requires Sane(readings) && cfg.policy.Valid()
    ensures AllInside(History(readings, cfg), cfg.policy)
  {
    if readings != [] {
      var front, r := readings[..|readings| - 1], readings[|readings| - 1];
      HistoryInside(front, cfg);
      DesiredInBounds(r.current, r.value, cfg.policy);
      KeptMembers(History(front, cfg), r.now - cfg.window);
    }
  }

  /** In every run, with whatever counts and metrics the environment reports, the stabilized
      value is inside the bounds; the count handed to the guard is inside when the current one
      is, and otherwise it is nearer by at least the step limit or reaches the interval. */
  lemma DecisionBounds(readings: seq<Reading>, r: Reading, cfg: Config)
    requires Sane(readings) && r.value >= 0.0 && cfg.policy.Valid()
    ensures var h := History(readings, cfg);
            && Inside(Stabilized(h, r, cfg), cfg.policy)
            && (Inside(r.current, cfg.policy) ==> Inside(Final(h, r, cfg), cfg.policy))
            && (cfg.maxStep == 0 || Gap(r.current, cfg.policy) <= cfg.maxStep ==>
                  Gap(Final(h, r, cfg), cfg.policy) == 0)
            && (0 < cfg.maxStep < Gap(r.current, cfg.policy) ==>
                  Gap(Final(h, r, cfg), cfg.policy) == Gap(r.current, cfg.policy) - cfg.maxStep)
  {
    var h, p := History(readings, cfg), cfg.policy;
    var desired := Desired(r.current, r.value, p);
    HistoryInside(readings, cfg);
    DesiredInBounds(r.current, r.value, p);
    KeptMembers(h, r.now - cfg.window);
    var next := Next(h, cfg.window, desired, r.now);
    assert forall e :: e in next ==> e.rec <= p.max;
    MaxRecRange(next, p.min, p.max, desired);
    ClampStepExact(r.current, Stabilized(h, r, cfg), cfg.maxStep);
  }

  // ----- constant total load: convergence -----

  /** `applied` is false when the guard did not change the count: cooldown, dry-run, or a
      failed update. */
  datatype Tick = Tick(now: int, applied: bool)

  datatype State = State(replicas: Word, history: seq<Sample>)

  function Wanted(c: Word, load: real, p: Policy): Word
    requires load >= 0.0 && p.Valid()
  {
    if c == 0 then 0 else ShareNatural(load, c); Desired(c, Share(load, c), p)
  }

  lemma ShareNatural(load: real, c: Word)
    requires load >= 0.0 && c > 0
    ensures Share(load, c) >= 0.0
  {
  }

  /** A service without replicas reports no metric, so the tick leaves it alone. */
  function Step(s: State, load: real, cfg: Config, t: Tick): State
    requires load >= 0.0 && cfg.policy.Valid()
  {
    if s.replicas == 0 then s
    else
      var desired := Wanted(s.replicas, load, cfg.policy);
      var h := Next(s.history, cfg.window, desired, t.now);
      var final := ClampStep(s.replicas, Answer(h, cfg.window, s.replicas, desired), cfg.maxStep);
      State(if t.applied then final else s.replicas, h)
  }

  function Run(s: State, load: real, cfg: Config, ticks: seq<Tick>): State
    requires load >= 0.0 && cfg.policy.Valid()
  {
    if ticks == [] then s
    else Step(Run(s, load, cfg, ticks[..|ticks| - 1]), load, cfg, ticks[|ticks| - 1])
  }

  /** No tick can change the count any more. */
  predicate Settled(c: Word, load: real, p: Policy)
    requires load >= 0.0 && p.Valid()
  {
    Wanted(c, load, p) == c
  }

  /** The sample was taken no later than t0, or it is the recommendation for some count the
      service has passed on its way down from c0. */
  ghost predicate Explained(e: Sample, x: Word, c0: Word, t0: int, load: real, p: Policy)
    requires load >= 0.0 && p.Valid()
  {
    e.at <= t0 || exists y: Word :: x <= y <= c0 && e.rec == Wanted(y, load, p)
  }

  ghost predicate AllExplained(s: State, c0: Word, t0: int, load: real, p: Policy)
    requires load >= 0.0 && p.Valid()
  {
    forall e :: e in s.history ==> Explained(e, s.replicas, c0, t0, load, p)
  }

  /** All samples from before the run have left the window. */
  predicate Late(t: Tick, t0: int, window: int) {
    window <= 0 || t.now - window > t0
  }

  function LateApplied(ticks: seq<Tick>, t0: int, window: int): nat {
    if ticks == [] then 0
    else
      var t := ticks[|ticks| - 1];
      LateApplied(ticks[..|ticks| - 1], t0, window) + if t.applied && Late(t, t0, window) then 1 else 0
  }

  lemma WantedStaysAhead(c: Word, x: Word, load: real, p: Policy)
    requires load >= 0.0 && p.Valid()
    ensures var d := Wanted(c, load, p); Between(c, x, d) ==> Between(x, Wanted(x, load, p), d)
  {
    if c > 0 && x > 0 { DesiredStaysAhead(c, x, load, p); }
  }

  /** On the way down the recommendations never fall: a count y passed before x asked for no
      more than x does, as long as x itself is not settled. */
  lemma WantedRisesOnTheWayDown(c: Word, x: Word, y: Word, load: real, p: Policy)
    requires load >= 0.0 && p.Valid()
    requires Wanted(c, load, p) <= x <= y <= c
    requires Wanted(x, load, p) < x
    ensures Wanted(y, load, p) <= Wanted(x, load, p)
  {
    DesiredUnderLoad(c, load, p);
    DesiredUnderLoad(x, load, p);
    DesiredUnderLoad(y, load, p);
    CeilBounds(load / p.target, x);
    CeilBounds(load / p.target, c);
  }

  /** One tick keeps the direction and never passes the first decision's target d. */
  lemma StepApproaches(s: State, c0: Word, load: real, cfg: Config, t: Tick)
    requires load >= 0.0 && cfg.policy.Valid()
    requires Between(c0, s.replicas, Wanted(c0, load, cfg.policy))
    ensures Between(s.replicas, Step(s, load, cfg, t).replicas, Wanted(c0, load, cfg.policy))
  {
    WantedStaysAhead(c0, s.replicas, load, cfg.policy);
    if s.replicas != 0 {
      var desired := Wanted(s.replicas, load, cfg.policy);
      var h := Next(s.history, cfg.window, desired, t.now);
      AnswerBetween(h, cfg.window, s.replicas, desired);
      ClampStepExact(s.replicas, Answer(h, cfg.window, s.replicas, desired), cfg.maxStep);
    }
  }

  lemma StepKeepsExplained(s: State, c0: Word, t0: int, load: real, cfg: Config, t: Tick)
    requires load >= 0.0 && cfg.policy.Valid()
    requires Wanted(c0, load, cfg.policy) <= s.replicas <= c0
    requires AllExplained(s, c0, t0, load, cfg.policy)
    ensures AllExplained(Step(s, load, cfg, t), c0, t0, load, cfg.policy)
  {
    StepApproaches(s, c0, load, cfg, t);
    KeptMembers(s.history, t.now - cfg.window);
    var next := Step(s, load, cfg, t);
    forall e | e in next.history ensures Explained(e, next.replicas, c0, t0, load, cfg.policy) {
      if e in s.history {
        assert Explained(e, s.replicas, c0, t0, load, cfg.policy);
      } else {
        assert next.replicas <= s.replicas <= c0 && e.rec == Wanted(s.replicas, load, cfg.policy);
      }
    }
  }

  /** With the old samples gone nothing holds an unsettled shrink back. */
  lemma LateShrinkIsNotHeld(s: State, c0: Word, t0: int, load: real, cfg: Config, t: Tick)
    requires load >= 0.0 && cfg.policy.Valid()
    requires Wanted(c0, load, cfg.policy) <= s.replicas <= c0
    requires AllExplained(s, c0, t0, load, cfg.policy)
    requires Wanted(s.replicas, load, cfg.policy) < s.replicas && Late(t, t0, cfg.window)
    ensures var desired := Wanted(s.replicas, load, cfg.policy);
            Answer(Next(s.history, cfg.window, desired, t.now), cfg.window, s.replicas, desired) == desired
  {
    var x, p := s.replicas, cfg.policy;
    var desired := Wanted(x, load, p);
    if cfg.window > 0 {
      KeptMembers(s.history, t.now - cfg.window);
      var h := Next(s.history, cfg.window, desired, t.now);
      forall e | e in h ensures e.rec <= desired {
        if e in Kept(s.history, t.now - cfg.window) {
          assert Explained(e, x, c0, t0, load, p);
          var y: Word :| x <= y <= c0 && e.rec == Wanted(y, load, p);
          WantedRisesOnTheWayDown(c0, x, y, load, p);
        }
      }
      MaxRecRange(h, desired, desired, desired);
    }
  }

  /** A late, applied tick either finds the count settled or moves it. */
  lemma StepProgresses(s: State, c0: Word, t0: int, load: real, cfg: Config, t: Tick)
    requires load >= 0.0 && cfg.policy.Valid()
    requires var d := Wanted(c0, load, cfg.policy);
             && Between(c0, s.replicas, d)
             && (d <= c0 ==> AllExplained(s, c0, t0, load, cfg.policy))
    requires t.applied && Late(t, t0, cfg.window) && !Settled(s.replicas, load, cfg.policy)
    ensures Step(s, load, cfg, t).replicas != s.replicas
  {
    var desired := Wanted(s.replicas, load, cfg.policy);
    WantedStaysAhead(c0, s.replicas, load, cfg.policy);
    if desired < s.replicas {
      LateShrinkIsNotHeld(s, c0, t0, load, cfg, t);
    }
    ClampStepExact(s.replicas, desired, cfg.maxStep);
  }

  lemma SettledStays(s: State, load: real, cfg: Config, t: Tick)
    requires load >= 0.0 && cfg.policy.Valid()
    requires Settled(s.replicas, load, cfg.policy)
    ensures Step(s, load, cfg, t).replicas == s.replicas
  {
  }

  lemma {:induction false} RunInvariant(s: State, t0: int, load: real, cfg: Config, ticks: seq<Tick>)
    requires load >= 0.0 && cfg.policy.Valid()
    requires forall e :: e in s.history ==> e.at <= t0
    ensures var d, x := Wanted(s.replicas, load, cfg.policy), Run(s, load, cfg, ticks);
            && Between(s.replicas, x.replicas, d)
            && (d <= s.replicas ==> AllExplained(x, s.replicas, t0, load, cfg.policy))
            && (Settled(x.replicas, load, cfg.policy) ||
                Distance(x.replicas, d) + LateApplied(ticks, t0, cfg.window) <= Distance(s.replicas, d))
  {
    if ticks != [] {
      var front, t := ticks[..|ticks| - 1], ticks[|ticks| - 1];
      RunInvariant(s, t0, load, cfg, front);
      var x := Run(s, load, cfg, front);
      StepApproaches(x, s.replicas, load, cfg, t);
      if Wanted(s.replicas, load, cfg.policy) <= s.replicas {
        StepKeepsExplained(x, s.replicas, t0, load, cfg, t);
      }
      if Settled(x.replicas, load, cfg.policy) {
        SettledStays(x, load, cfg, t);
      } else if t.applied && Late(t, t0, cfg.window) {
        StepProgresses(x, s.replicas, t0, load, cfg, t);
      }
    }
  }

  lemma RunAppend(s: State, load: real, cfg: Config, ticks: seq<Tick>, t: Tick)
    requires load >= 0.0 && cfg.policy.Valid()
    ensures Run(s, load, cfg, ticks + [t]) == Step(Run(s, load, cfg, ticks), load, cfg, t)
  {
    assert (ticks + [t])[..|ticks|] == ticks;
  }

  lemma {:induction false} RunStaysOnTheWay(s: State, load: real, cfg: Config, ticks: seq<Tick>)
    requires load >= 0.0 && cfg.policy.Valid()
    ensures Between(s.replicas, Run(s, load, cfg, ticks).replicas, Wanted(s.replicas, load, cfg.policy))
  {
    if ticks == [] {
      WantedStaysAhead(s.replicas, s.replicas, load, cfg.policy);
    } else {
      RunStaysOnTheWay(s, load, cfg, ticks[..|ticks| - 1]);
      StepApproaches(Run(s, load, cfg, ticks[..|ticks| - 1]), s.replicas, load, cfg, ticks[|ticks| - 1]);
    }
  }

  lemma BetweenTransitive(a: int, x: int, y: int, z: int, d: int)
    requires Between(a, x, d) && Between(x, y, d) && Between(y, z, d)
    ensures Between(x, z, d)
  {
  }

  lemma OneMoreTick(s: State, load: real, cfg: Config, ticks: seq<Tick>, t: Tick, x: Word)
    requires load >= 0.0 && cfg.policy.Valid()
    requires var d := Wanted(s.replicas, load, cfg.policy);
             Between(s.replicas, x, d) && Between(x, Run(s, load, cfg, ticks).replicas, d)
    ensures Between(x, Run(s, load, cfg, ticks + [t]).replicas, Wanted(s.replicas, load, cfg.policy))
  {
    var d, mid := Wanted(s.replicas, load, cfg.policy), Run(s, load, cfg, ticks);
    RunAppend(s, load, cfg, ticks, t);
    RunStaysOnTheWay(s, load, cfg, ticks);
    StepApproaches(mid, s.replicas, load, cfg, t);
    BetweenTransitive(s.replicas, x, mid.replicas, Step(mid, load, cfg, t).replicas, d);
  }

  lemma SplitLast<T>(a: seq<T>, b: seq<T>)
    requires b != []
    ensures a + b == (a + b[..|b| - 1]) + [b[|b| - 1]]
  {
  }

  lemma {:induction false} LaterIsFurther(s: State, load: real, cfg: Config, first: seq<Tick>, rest: seq<Tick>, x: Word)
    requires load >= 0.0 && cfg.policy.Valid() && Run(s, load, cfg, first).replicas == x
    ensures Between(x, Run(s, load, cfg, first + rest).replicas, Wanted(s.replicas, load, cfg.policy))
  {
    RunStaysOnTheWay(s, load, cfg, first);
    if rest == [] {
      assert first + rest == first;
    } else {
      var front, t := rest[..|rest| - 1], rest[|rest| - 1];
      LaterIsFurther(s, load, cfg, first, front, x);
      SplitLast(first, rest);
      OneMoreTick(s, load, cfg, first + front, t, x);
    }
  }

  /** Under a constant load, from any count, with any history left over from before, whatever
      the guard suppresses: the counts of a run move in one direction and never pass the
      target of the first decision. */
  lemma CountsNeverReverse(s: State, load: real, cfg: Config, first: seq<Tick>, rest: seq<Tick>)
    requires load >= 0.0 && cfg.policy.Valid()
    ensures var d := Wanted(s.replicas, load, cfg.policy);
            var x, y := Run(s, load, cfg, first).replicas, Run(s, load, cfg, first + rest).replicas;
            && Between(s.replicas, x, d) && Between(x, y, d)
  {
    RunStaysOnTheWay(s, load, cfg, first);
    LaterIsFurther(s, load, cfg, first, rest, Run(s, load, cfg, first).replicas);
  }

  /** Convergence of the whole loop: once as many late ticks have been applied as the first
      decision was away from the starting count, the service is settled, and it stays so. */
  lemma LoopConverges(s: State, t0: int, load: real, cfg: Config, ticks: seq<Tick>)
    requires load >= 0.0 && cfg.policy.Valid()
    requires forall e :: e in s.history ==> e.at <= t0
    requires LateApplied(ticks, t0, cfg.window) >= Distance(s.replicas, Wanted(s.replicas, load, cfg.policy))
    ensures Settled(Run(s, load, cfg, ticks).replicas, load, cfg.policy)
  {
    RunInvariant(s, t0, load, cfg, ticks);
    WantedStaysAhead(s.replicas, Run(s, load, cfg, ticks).replicas, load, cfg.policy);
  }
}
