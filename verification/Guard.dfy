/** The single mutation gate of internal/app/reconciler/guard.go and the per-service cooldown of
    cooldown.go.  Clock readings and the controller's answer are inputs of each call. */
module Guarding {
  import opened Words

  datatype Windows = Windows(scaleUp: int, scaleDown: int, heal: int, rebalance: int)

  datatype Action =
    | Scale(replicated: bool, replicas: Word, desired: Word)
    | Heal
    | Rebalance(optedIn: bool)
  {
    /** A call that returns before it looks at the cooldown. */
    predicate Skipped() {
      match this
      case Scale(replicated, replicas, desired) => !replicated || desired == replicas
      case Heal => false
      case Rebalance(optedIn) => !optedIn
    }

    function Window(w: Windows): int {
      match this
      case Scale(_, replicas, desired) => if desired > replicas then w.scaleUp else w.scaleDown
      case Heal => w.heal
      case Rebalance(_) => w.rebalance
    }
  }

  /** One call: the clock is read by Allowed at `checkAt` and by Record at `recordAt`;
      `accepted` is the controller's answer, if it is asked. */
  datatype Request = Request(service: ServiceId, action: Action, checkAt: int, recordAt: int, accepted: bool)

  datatype Command = SetReplicas(service: ServiceId, replicas: Word) | ForceUpdate(service: ServiceId)

  datatype Outcome = Skip | Suppressed | DryRun | Failed | Applied
  {
    /** The call got past the cooldown. */
    predicate Acted() { DryRun? || Failed? || Applied? }

    /** The call left a stamp. */
    predicate Stamped() { DryRun? || Applied? }
  }

  // ----- the cooldown -----

  class Cooldown {
    var last: map<ServiceId, int>

    constructor ()
      ensures last == map[]
    {
      last := map[];
    }

    predicate Allowed(service: ServiceId, window: int, now: int)
      reads this
    {
      AllowedAt(last, service, window, now)
    }

    method Record(service: ServiceId, now: int)
      modifies this
      ensures last == old(last)[service := now]
    {
      last := last[service := now];
    }
  }

  predicate AllowedAt(last: map<ServiceId, int>, service: ServiceId, window: int, now: int) {
    window <= 0 || service !in last || now - last[service] >= window
  }

  /** What CooldownRemaining reports for one window. */
  function Remaining(last: map<ServiceId, int>, service: ServiceId, window: int, now: int): int {
    if service !in last then 0
    else if window <= 0 then 0
    else if window - (now - last[service]) > 0 then window - (now - last[service])
    else 0
  }

  /** The gauge is positive exactly while the action is suppressed. */
  lemma RemainingIffSuppressed(last: map<ServiceId, int>, service: ServiceId, window: int, now: int)
    ensures Remaining(last, service, window, now) > 0 <==> !AllowedAt(last, service, window, now)
    ensures var left := Remaining(last, service, window, now);
            && AllowedAt(last, service, window, now + left)
            && (forall t :: now <= t < now + left ==> !AllowedAt(last, service, window, t))
  {
  }

  // ----- the guard -----

  /** Everything the guard can change: the stamps, and the commands the controller received. */
  datatype GuardState = GuardState(last: map<ServiceId, int>, sent: seq<Command>)

  function Decide(s: GuardState, w: Windows, dryRun: bool, r: Request): Outcome {
    if r.action.Skipped() then Skip
    else if !AllowedAt(s.last, r.service, r.action.Window(w), r.checkAt) then Suppressed
    else if dryRun then DryRun
    else if r.accepted then Applied else Failed
  }

  function CommandOf(r: Request): Command {
    match r.action
    case Scale(_, _, desired) => SetReplicas(r.service, desired)
    case _ => ForceUpdate(r.service)
  }

  function After(s: GuardState, w: Windows, dryRun: bool, r: Request): GuardState {
    var o := Decide(s, w, dryRun, r);
    GuardState(
      if o.Stamped() then s.last[r.service := r.recordAt] else s.last,
      if o.Applied? || o.Failed? then s.sent + [CommandOf(r)] else s.sent)
  }

  /** A scale request, by the direction it goes in: what it takes to get past the cooldown, which
      command is sent, and when a stamp is left. */
  lemma ScaleMeans(s: GuardState, w: Windows, dryRun: bool, r: Request)
    requires r.action.Scale?
    ensures var a, o, after := r.action, Decide(s, w, dryRun, r), After(s, w, dryRun, r);
            var age := if r.service in s.last then r.checkAt - s.last[r.service] else 0;
            var free := r.service !in s.last;
            && (o == Skip <==> !a.replicated || a.desired == a.replicas)
            && (a.replicated && a.desired > a.replicas ==> (o != Suppressed <==> w.scaleUp <= 0 || free || age >= w.scaleUp))
            && (a.replicated && a.desired < a.replicas ==> (o != Suppressed <==> w.scaleDown <= 0 || free || age >= w.scaleDown))
            && Follows(s, dryRun, r, SetReplicas(r.service, a.desired), o, after)
  {
  }

  /** The same for a heal and for a rebalance. */
  lemma ForceMeans(s: GuardState, w: Windows, dryRun: bool, r: Request)
    requires !r.action.Scale?
    ensures var o, after := Decide(s, w, dryRun, r), After(s, w, dryRun, r);
            var age := if r.service in s.last then r.checkAt - s.last[r.service] else 0;
            var free := r.service !in s.last;
            && (o == Skip <==> r.action == Rebalance(false))
            && (r.action.Heal? ==> (o != Suppressed <==> w.heal <= 0 || free || age >= w.heal))
            && (r.action == Rebalance(true) ==> (o != Suppressed <==> w.rebalance <= 0 || free || age >= w.rebalance))
            && Follows(s, dryRun, r, ForceUpdate(r.service), o, after)
  {
  }

  /** Past the cooldown: in dry-run only a stamp; otherwise the command, and a stamp if it is accepted. */
  predicate Follows(s: GuardState, dryRun: bool, r: Request, command: Command, o: Outcome, after: GuardState) {
    && (o != Skip && o != Suppressed ==> o == if dryRun then DryRun else if r.accepted then Applied else Failed)
    && after.sent == (if o == Applied || o == Failed then s.sent + [command] else s.sent)
    && after.last == (if o == Applied || o == DryRun then s.last[r.service := r.recordAt] else s.last)
  }

  /** CooldownRemaining. */
  datatype Gauges = Gauges(scaleUp: int, scaleDown: int, heal: int, rebalance: int)

  function CooldownRemaining(last: map<ServiceId, int>, w: Windows, service: ServiceId, now: int): Gauges {
    Gauges(Remaining(last, service, w.scaleUp, now), Remaining(last, service, w.scaleDown, now),
           Remaining(last, service, w.heal, now), Remaining(last, service, w.rebalance, now))
  }

  /** Each gauge is positive exactly while a request of its kind would be suppressed. */
  lemma GaugesMatch(s: GuardState, w: Windows, dryRun: bool, r: Request)
    requires r.action != Rebalance(false)
    requires r.action.Scale? ==> r.action.replicated && r.action.desired != r.action.replicas
    ensures var g := CooldownRemaining(s.last, w, r.service, r.checkAt);
            Decide(s, w, dryRun, r) == Suppressed <==>
              0 < match r.action
                  case Scale(_, replicas, desired) => (if desired > replicas then g.scaleUp else g.scaleDown)
                  case Heal => g.heal
                  case Rebalance(_) => g.rebalance
  {
    RemainingIffSuppressed(s.last, r.service, r.action.Window(w), r.checkAt);
  }

  class Guard {
    const cooldown: Cooldown
    const windows: Windows
    const dryRun: bool
    /** The commands handed to the Swarm controller, in order. */
    var sent: seq<Command>

    constructor (cooldown: Cooldown, windows: Windows, dryRun: bool)
      ensures this.cooldown == cooldown && this.windows == windows && this.dryRun == dryRun && sent == []
    {
      this.cooldown := cooldown;
      this.windows := windows;
      this.dryRun := dryRun;
      sent := [];
    }

    ghost function State(): GuardState
      reads this, cooldown
    {
      GuardState(cooldown.last, sent)
    }

    /** Guard.Scale. */
    method ScaleService(service: ServiceId, replicated: bool, replicas: Word, desired: Word,
                        checkAt: int, recordAt: int, accepted: bool) returns (o: Outcome)
      modifies this, cooldown
      ensures var r := Request(service, Scale(replicated, replicas, desired), checkAt, recordAt, accepted);
              && o == Decide(old(State()), windows, dryRun, r)
              && State() == After(old(State()), windows, dryRun, r)
    {
      if !replicated { return Skip; }
      if desired == replicas { return Skip; }
      var window := windows.scaleDown;
      if desired > replicas {
        window := windows.scaleUp;
      }
      if !cooldown.Allowed(service, window, checkAt) { return Suppressed; }
      if dryRun {
        cooldown.Record(service, recordAt);
        return DryRun;
      }
      sent := sent + [SetReplicas(service, desired)];
      if !accepted { return Failed; }
      cooldown.Record(service, recordAt);
      return Applied;
    }

    /** Guard.Heal. */
    method HealService(service: ServiceId, checkAt: int, recordAt: int, accepted: bool) returns (o: Outcome)
      modifies this, cooldown
      ensures var r := Request(service, Heal, checkAt, recordAt, accepted);
              && o == Decide(old(State()), windows, dryRun, r)
              && State() == After(old(State()), windows, dryRun, r)
    {
      if !cooldown.Allowed(service, windows.heal, checkAt) { return Suppressed; }
      if dryRun {
        cooldown.Record(service, recordAt);
        return DryRun;
      }
      sent := sent + [ForceUpdate(service)];
      if !accepted { return Failed; }
      cooldown.Record(service, recordAt);
      return Applied;
    }

    /** Guard.Rebalance. */
    method RebalanceService(service: ServiceId, optedIn: bool, checkAt: int, recordAt: int, accepted: bool)
        returns (o: Outcome)
      modifies this, cooldown
      ensures var r := Request(service, Rebalance(optedIn), checkAt, recordAt, accepted);
              && o == Decide(old(State()), windows, dryRun, r)
              && State() == After(old(State()), windows, dryRun, r)
    {
      if !optedIn { return Skip; }
      if !cooldown.Allowed(service, windows.rebalance, checkAt) { return Suppressed; }
      if dryRun {
        cooldown.Record(service, recordAt);
        return DryRun;
      }
      sent := sent + [ForceUpdate(service)];
      if !accepted { return Failed; }
      cooldown.Record(service, recordAt);
      return Applied;
    }
  }

  // ----- runs -----

  function Run(rs: seq<Request>, w: Windows, dryRun: bool): GuardState {
    if rs == [] then GuardState(map[], [])
    else After(Run(rs[..|rs| - 1], w, dryRun), w, dryRun, rs[|rs| - 1])
  }

  /** The outcome of the i-th request of a run. */
  function OutcomeAt(rs: seq<Request>, w: Windows, dryRun: bool, i: nat): Outcome
    requires i < |rs|
  {
    Decide(Run(rs[..i], w, dryRun), w, dryRun, rs[i])
  }

  /** Both readings of each call and the calls among themselves follow the clock. */
  predicate ClockNondecreasing(rs: seq<Request>) {
    && (forall i :: 0 <= i < |rs| ==> rs[i].checkAt <= rs[i].recordAt)
    && (forall i, j :: 0 <= i < j < |rs| ==> rs[i].recordAt <= rs[j].checkAt)
  }

  /** The i-th request left a stamp for the service. */
  predicate StampsAt(rs: seq<Request>, w: Windows, dryRun: bool, service: ServiceId, i: nat)
    requires i < |rs|
  {
    rs[i].service == service && OutcomeAt(rs, w, dryRun, i).Stamped()
  }

  /** The stamp of a service is never older than any action it recorded. */
  lemma {:induction false} StampCoversActions(rs: seq<Request>, w: Windows, dryRun: bool, service: ServiceId, i: nat)
    requires ClockNondecreasing(rs) && i < |rs| && StampsAt(rs, w, dryRun, service, i)
    ensures var last := Run(rs, w, dryRun).last;
            service in last && rs[i].recordAt <= last[service] <= rs[|rs| - 1].recordAt
  {
    var front, r := rs[..|rs| - 1], rs[|rs| - 1];
    if i < |front| {
      assert front[..i] == rs[..i];
      StampCoversActions(front, w, dryRun, service, i);
    } else {
      assert rs[..i] == front;
    }
  }

  /** Spacing: whatever got past the gate came at least its own window after every action
      recorded earlier for the same service, of whatever kind. */
  lemma ActionsAreSpaced(rs: seq<Request>, w: Windows, dryRun: bool, i: nat, j: nat)
    requires ClockNondecreasing(rs) && i < j < |rs|
    requires StampsAt(rs, w, dryRun, rs[j].service, i) && OutcomeAt(rs, w, dryRun, j).Acted()
    ensures rs[j].checkAt - rs[i].recordAt >= rs[j].action.Window(w)
    ensures var gap := rs[j].checkAt - rs[i].recordAt;
            match rs[j].action
            case Scale(_, replicas, desired) => (desired > replicas ==> gap >= w.scaleUp) && (desired < replicas ==> gap >= w.scaleDown)
            case Heal => gap >= w.heal
            case Rebalance(_) => gap >= w.rebalance
  {
    var front := rs[..j];
    assert front[..i] == rs[..i];
    StampCoversActions(front, w, dryRun, rs[j].service, i);
    assert rs[i].recordAt <= rs[j].checkAt;
  }

  predicate AtLeast(w: Windows, least: int) {
    w.scaleUp >= least && w.scaleDown >= least && w.heal >= least && w.rebalance >= least
  }

  /** How many actions were recorded for a service by the requests from `i` on. */
  function Recorded(rs: seq<Request>, w: Windows, dryRun: bool, service: ServiceId, i: nat, j: nat): nat
    requires i <= j <= |rs|
    decreases j
  {
    if i == j then 0
    else Recorded(rs, w, dryRun, service, i, j - 1) + if StampsAt(rs, w, dryRun, service, j - 1) then 1 else 0
  }

  /** A recorded action at `k` that ends at least n - 1 shortest windows after the first of
      the n actions recorded before `j`. */
  predicate Spread(rs: seq<Request>, w: Windows, dryRun: bool, service: ServiceId, least: int, i: nat, j: nat, k: nat)
    requires i < j <= |rs|
  {
    && i <= k < j && StampsAt(rs, w, dryRun, service, k)
    && rs[k].recordAt - rs[i].recordAt >= Times(Recorded(rs, w, dryRun, service, i, j) - 1, least)
  }

  /** Rate: a stretch of the run that records n actions on a service ends at least n - 1 of
      the shortest windows after the first of them; `k` is the last of them. */
  lemma {:induction false} RateLimited(rs: seq<Request>, w: Windows, dryRun: bool, service: ServiceId,
                                       least: int, i: nat, j: nat) returns (k: nat)
    requires ClockNondecreasing(rs) && AtLeast(w, least) && i < j <= |rs|
    requires StampsAt(rs, w, dryRun, service, i)
    ensures Spread(rs, w, dryRun, service, least, i, j, k)
    decreases j
  {
    RecordedMore(rs, w, dryRun, service, i, j);
    k := i;
    if i + 1 < j {
      k := RateLimited(rs, w, dryRun, service, least, i, j - 1);
      if StampsAt(rs, w, dryRun, service, j - 1) {
        SpreadMore(rs, w, dryRun, service, least, i, j, k);
        k := j - 1;
      }
    }
  }

  lemma SpreadMore(rs: seq<Request>, w: Windows, dryRun: bool, service: ServiceId, least: int, i: nat, j: nat, k: nat)
    requires ClockNondecreasing(rs) && AtLeast(w, least) && i + 1 < j <= |rs|
    requires Spread(rs, w, dryRun, service, least, i, j - 1, k) && StampsAt(rs, w, dryRun, service, j - 1)
    ensures Spread(rs, w, dryRun, service, least, i, j, j - 1)
  {
    OneWindowLater(rs, w, dryRun, service, least, k, j - 1);
    RecordedMore(rs, w, dryRun, service, i, j);
    TimesStep(Recorded(rs, w, dryRun, service, i, j - 1) - 1, least);
  }

  lemma RecordedMore(rs: seq<Request>, w: Windows, dryRun: bool, service: ServiceId, i: nat, j: nat)
    requires i < j <= |rs|
    ensures Recorded(rs, w, dryRun, service, i, i) == 0
    ensures Recorded(rs, w, dryRun, service, i, j)
              == Recorded(rs, w, dryRun, service, i, j - 1) + if StampsAt(rs, w, dryRun, service, j - 1) then 1 else 0
  {
  }

  lemma OneWindowLater(rs: seq<Request>, w: Windows, dryRun: bool, service: ServiceId, least: int, k: nat, j: nat)
    requires ClockNondecreasing(rs) && AtLeast(w, least) && k < j < |rs|
    requires StampsAt(rs, w, dryRun, service, k) && StampsAt(rs, w, dryRun, service, j)
    ensures rs[j].recordAt - rs[k].recordAt >= least
  {
    ActionsAreSpaced(rs, w, dryRun, k, j);
    assert rs[j].action.Window(w) >= least;
  }

  function Times(n: int, d: int): int {
    n * d
  }

  lemma TimesStep(n: int, d: int)
    ensures Times(n + 1, d) == Times(n, d) + d
  {
  }

  /** In a span of length T a service sees at most 1 + T / least recorded actions (the
      division is multiplied out). */
  lemma AtMostOnePlusSpan(rs: seq<Request>, w: Windows, dryRun: bool, service: ServiceId,
                          least: int, span: nat, i: nat, j: nat)
    requires ClockNondecreasing(rs) && AtLeast(w, least) && i < j <= |rs|
    requires StampsAt(rs, w, dryRun, service, i)
    requires rs[j - 1].recordAt - rs[i].recordAt <= span
    ensures (Recorded(rs, w, dryRun, service, i, j) - 1) * least <= span
  {
    var k := RateLimited(rs, w, dryRun, service, least, i, j);
    assert k < j - 1 ==> rs[k].recordAt <= rs[j - 1].checkAt;
  }

  /** In dry-run the controller is never called, although stamps are taken. */
  lemma {:induction false} DryRunNeverCommands(rs: seq<Request>, w: Windows)
    ensures Run(rs, w, true).sent == []
  {
    if rs != [] { DryRunNeverCommands(rs[..|rs| - 1], w); }
  }

  /** The stamp of a service is exactly the record time of its last dry-run or accepted
      action: skipped, suppressed and failed calls, and calls for other services, leave it. */
  lemma {:induction false} StampIsLastAction(rs: seq<Request>, w: Windows, dryRun: bool, service: ServiceId)
    ensures var last := Run(rs, w, dryRun).last;
            if service in last then
              exists k :: 0 <= k < |rs| && StampsAt(rs, w, dryRun, service, k) && last[service] == rs[k].recordAt
                && forall i :: k < i < |rs| ==> !StampsAt(rs, w, dryRun, service, i)
            else
              forall i :: 0 <= i < |rs| ==> !StampsAt(rs, w, dryRun, service, i)
  {
    if rs != [] {
      var front, n := rs[..|rs| - 1], |rs| - 1;
      StampIsLastAction(front, w, dryRun, service);
      assert rs[..n] == front;
      assert forall i :: 0 <= i < n ==> front[..i] == rs[..i];
      assert forall i :: 0 <= i < n ==> StampsAt(front, w, dryRun, service, i) == StampsAt(rs, w, dryRun, service, i);
      var last := Run(rs, w, dryRun).last;
      if StampsAt(rs, w, dryRun, service, n) {
        assert last[service] == rs[n].recordAt;
      }
    }
  }
}
