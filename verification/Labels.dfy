/** The swarm.autoscaler.* labels: internal/config/labels.go. */
module Labels {
  import opened Words
  import opened Options
  import opened Numbers
  import Autoscaler

  const LABEL_ENABLED := "swarm.autoscaler.enabled"
  const LABEL_MIN := "swarm.autoscaler.min"
  const LABEL_MAX := "swarm.autoscaler.max"
  const LABEL_METRIC := "swarm.autoscaler.metric"
  const LABEL_TARGET := "swarm.autoscaler.target"
  const LABEL_SOURCE := "swarm.autoscaler.source"
  const LABEL_HEAL := "swarm.autoscaler.heal"
  const LABEL_REBALANCE := "swarm.autoscaler.rebalance"

  const PROVIDERS: set<string> := {"", "dockerstats", "prometheus", "agents"}

  /** A Go map read: the empty string for an absent key. */
  function Read(labels: map<string, string>, key: string): string {
    if key in labels then labels[key] else ""
  }

  /** strconv.ParseBool. */
  function ParseBool(s: string): Option<bool> {
    if s in {"1", "t", "T", "TRUE", "true", "True"} then Some(true)
    else if s in {"0", "f", "F", "FALSE", "false", "False"} then Some(false)
    else None
  }

  /** An optional flag: the default when absent or empty, None when it does not parse. */
  function Flag(labels: map<string, string>, key: string, default: bool): Option<bool> {
    if Read(labels, key) == "" then Some(default) else ParseBool(Read(labels, key))
  }

  datatype Parsed =
    | Invalid
    | OptIns(heal: bool, rebalance: bool)
    | Autoscaled(policy: Autoscaler.Policy, heal: bool, rebalance: bool)

  /** ParsePolicy and validatePolicy.  `parseFloat` is strconv.ParseFloat on finite values. */
  function ParsePolicy(labels: map<string, string>, parseFloat: string -> Option<real>): Parsed {
    var enabled := Read(labels, LABEL_ENABLED) == "true";
    var heal, rebalance := Flag(labels, LABEL_HEAL, enabled), Flag(labels, LABEL_REBALANCE, false);
    if heal.None? || rebalance.None? then Invalid
    else if !enabled then OptIns(heal.value, rebalance.value)
    else
      var min, max := ParseUint(Read(labels, LABEL_MIN)), ParseUint(Read(labels, LABEL_MAX));
      var target := if Read(labels, LABEL_TARGET) == "" then None else parseFloat(Read(labels, LABEL_TARGET));
      if min.None? || max.None? || target.None? then Invalid
      else if max.value < 1 || min.value > max.value || target.value <= 0.0 then Invalid
      else if Read(labels, LABEL_METRIC) == "" || Read(labels, LABEL_SOURCE) !in PROVIDERS then Invalid
      else Autoscaled(Autoscaler.Policy(min.value, max.value, target.value), heal.value, rebalance.value)
  }

  /** A flag label: absent or empty is the default. */
  predicate FlagIs(labels: map<string, string>, key: string, default: bool, on: bool) {
    if key !in labels || labels[key] == "" then on == default
    else if on then labels[key] in {"1", "t", "T", "TRUE", "true", "True"}
    else labels[key] in {"0", "f", "F", "FALSE", "false", "False"}
  }

  predicate NumberIs(labels: map<string, string>, key: string, n: Word) {
    key in labels && ParseUint(labels[key]) == Some(n)
  }

  predicate RealIs(labels: map<string, string>, key: string, parseFloat: string -> Option<real>, r: real) {
    key in labels && labels[key] != "" && parseFloat(labels[key]) == Some(r)
  }

  /** Which labels make an autoscaled service, and with which policy and opt-ins. */
  lemma AutoscaledIff(labels: map<string, string>, parseFloat: string -> Option<real>, p: Autoscaler.Policy, heal: bool,
                      rebalance: bool)
    ensures ParsePolicy(labels, parseFloat) == Autoscaled(p, heal, rebalance) <==>
              && "swarm.autoscaler.enabled" in labels && labels["swarm.autoscaler.enabled"] == "true"
              && NumberIs(labels, "swarm.autoscaler.min", p.min) && NumberIs(labels, "swarm.autoscaler.max", p.max)
              && RealIs(labels, "swarm.autoscaler.target", parseFloat, p.target)
              && 1 <= p.max && p.min <= p.max && p.target > 0.0
              && "swarm.autoscaler.metric" in labels && labels["swarm.autoscaler.metric"] != ""
              && ("swarm.autoscaler.source" in labels ==>
                    labels["swarm.autoscaler.source"] in {"", "dockerstats", "prometheus", "agents"})
              && FlagIs(labels, "swarm.autoscaler.heal", true, heal)
              && FlagIs(labels, "swarm.autoscaler.rebalance", false, rebalance)
  {
    assert ParseUint("") == None;
  }

  /** Which labels leave a service to itself, but for the opt-ins. */
  lemma OptInsIff(labels: map<string, string>, parseFloat: string -> Option<real>, heal: bool, rebalance: bool)
    ensures ParsePolicy(labels, parseFloat) == OptIns(heal, rebalance) <==>
              && !("swarm.autoscaler.enabled" in labels && labels["swarm.autoscaler.enabled"] == "true")
              && FlagIs(labels, "swarm.autoscaler.heal", false, heal)
              && FlagIs(labels, "swarm.autoscaler.rebalance", false, rebalance)
  {
  }

  /** carry-forward's own reader: a missing or invalid bound is 0, meaning no bound. */
  function Bound(labels: map<string, string>, key: string): Word {
    match ParseUint(Read(labels, key))
    case None => 0
    case Some(v) => v
  }

  /** The two-sided clamp of carry-forward. */
  function CarryClamp(labels: map<string, string>, replicas: Word): Word {
    var min, max := Bound(labels, LABEL_MIN), Bound(labels, LABEL_MAX);
    var capped := if max > 0 && replicas > max then max else replicas;
    if min > 0 && capped < min then min else capped
  }

  /** What the autoscaler relies on: an accepted policy is always valid, and its bounds are the
      very numbers carry-forward reads from the same labels. */
  lemma ParsedPolicyIsValid(labels: map<string, string>, parseFloat: string -> Option<real>)
    requires ParsePolicy(labels, parseFloat).Autoscaled?
    ensures var p := ParsePolicy(labels, parseFloat).policy;
            p.Valid() && p.min == Bound(labels, LABEL_MIN) && p.max == Bound(labels, LABEL_MAX)
    ensures Read(labels, LABEL_ENABLED) == "true"
  {
  }

  /** For labels the daemon accepts, carry-forward and the autoscaler clamp alike, so a deploy
      moves a live count exactly when the autoscaler's bounds exclude it. */
  lemma CarryClampIsClamp(labels: map<string, string>, parseFloat: string -> Option<real>, replicas: Word)
    requires ParsePolicy(labels, parseFloat).Autoscaled?
    ensures var p := ParsePolicy(labels, parseFloat).policy;
            && CarryClamp(labels, replicas) == Autoscaler.Clamp(replicas, p.min, p.max)
            && (CarryClamp(labels, replicas) == replicas <==> p.min <= replicas <= p.max)
  {
    ParsedPolicyIsValid(labels, parseFloat);
  }

  /** Whatever the bounds, clamping a clamped count changes nothing. */
  lemma CarryClampTwice(labels: map<string, string>, replicas: Word)
    ensures CarryClamp(labels, CarryClamp(labels, replicas)) == CarryClamp(labels, replicas)
  {
  }

  /** For any other labels the two clamps agree on a count exactly when the labels give a
      positive upper bound not below the lower one, or the count is below the lower bound (or
      zero): without an upper bound carry-forward does not cap, and crossed bounds end at the
      lower one. */
  lemma ClampsAgreeIff(labels: map<string, string>, replicas: Word)
    ensures var min, max := Bound(labels, LABEL_MIN), Bound(labels, LABEL_MAX);
            CarryClamp(labels, replicas) == Autoscaler.Clamp(replicas, min, max)
            <==> (0 < max && min <= max) || replicas < min || replicas == 0
  {
  }
}
