/** The scaling arithmetic of internal/core/autoscaler: the proportional rule with its
    deadband and ceiling, and the limit on the size of one step.  Metric values are exact
    reals; replica counts are 64-bit words. */
module Autoscaler {
  import opened Words

  datatype Policy = Policy(min: Word, max: Word, target: real)
  {
    /** What ParsePolicy guarantees of every policy it accepts. */
    predicate Valid() {
      min <= max && max >= 1 && target > 0.0
    }
  }

  const DEFAULT_TOLERANCE: real := 0.1

  function Clamp(v: nat, lo: Word, hi: Word): Word {
    if v < lo then lo else if v > hi then hi else v
  }

  function Ceil(x: real): int {
    -((-x).Floor)
  }

  /** The arithmetic of the rule is stated with it, so that equal factors give equal products. */
  function Product(a: real, b: real): real {
    a * b
  }

  function Abs(x: real): real {
    if x < 0.0 then -x else x
  }

  function Desired(current: Word, value: real, p: Policy): Word
    requires value >= 0.0
  {
    if p.target <= 0.0 then Clamp(current, p.min, p.max)
    else if current == 0 then Clamp(p.min, p.min, p.max)
    else HoldOrScale(current, value / p.target, p)
  }

  /** The last two branches of Desired: hold inside the deadband, scale outside it. */
  function HoldOrScale(current: Word, ratio: real, p: Policy): Word
    requires ratio >= 0.0
  {
    if Abs(ratio - 1.0) <= DEFAULT_TOLERANCE then
      Clamp(current, p.min, p.max)
    else
      Clamp(Scaled(current, ratio), p.min, p.max)
  }

  /** The current count times the ratio, rounded up; a ratio on one side of 1 never moves the
      count to the other side. */
  function Scaled(current: Word, ratio: real): (n: nat)
    requires ratio >= 0.0
    ensures ratio <= 1.0 ==> n <= current
    ensures ratio >= 1.0 ==> current <= n
  {
    ScaleLinear(current as real, ratio);
    CeilSide(Product(current as real, ratio), current);
    Ceil(Product(current as real, ratio))
  }

  /** The additions and subtractions are the wrapping ones of `uint64`. */
  function ClampStep(current: Word, desired: Word, maxStep: Word): Word {
    if maxStep == 0 || desired == current then
      desired
    else if desired > current then
      if Sub(desired, current) > maxStep then Add(current, maxStep) else desired
    else
      if Sub(current, desired) > maxStep then Sub(current, maxStep) else desired
  }

  // ----- one step -----

  /** x lies on the way from a to b, both ends included. */
  predicate Between(a: int, x: int, b: int) {
    (a <= x <= b) || (b <= x <= a)
  }

  /** The two clauses determine the step: it lies on the way to the desired count, and it
      covers exactly the smaller of the distance and the limit.  In particular the wrapping
      operators never wrap. */
  lemma ClampStepExact(current: Word, desired: Word, maxStep: Word)
    ensures var r := ClampStep(current, desired, maxStep);
            && Between(current, r, desired)
            && Distance(current, r) ==
               if maxStep == 0 || Distance(current, desired) <= maxStep
               then Distance(current, desired) else maxStep
  {
    if desired > current {
      assert Sub(desired, current) == desired - current;
    } else {
      assert Sub(current, desired) == current - desired;
    }
  }

  /** For a valid policy the result is always inside the bounds. */
  lemma DesiredInBounds(current: Word, value: real, p: Policy)
    requires p.Valid() && value >= 0.0
    ensures p.min <= Desired(current, value, p) <= p.max
  {
  }

  /** A service without replicas starts at its minimum, whatever the metric says. */
  lemma DesiredAtZero(value: real, p: Policy)
    requires p.Valid() && value >= 0.0
    ensures Desired(0, value, p) == p.min
  {
  }

  /** Within a tenth of the target, and with a policy that has none, the count stays, or goes to the
      bound it is beyond. */
  lemma DesiredHolds(current: Word, value: real, p: Policy)
    requires p.min <= p.max && value >= 0.0
    requires p.target <= 0.0 || (current > 0 && 0.9 * p.target <= value <= 1.1 * p.target)
    ensures var d := Desired(current, value, p);
            if current < p.min then d == p.min else if current > p.max then d == p.max else d == current
  {
    if p.target > 0.0 { TenthOfTarget(value, p.target); }
  }

  lemma TenthOfTarget(value: real, target: real)
    requires target > 0.0 && value >= 0.0
    ensures Abs(value / target - 1.0) <= 0.1 <==> 0.9 * target <= value <= 1.1 * target
  {
    assert Product(target, value / target) == value;
    DeadbandScales(target, value / target, value);
  }

  lemma CeilScaleMonotone(c: real, r: real, s: real)
    requires c >= 0.0 && r <= s
    ensures Ceil(Product(c, r)) <= Ceil(Product(c, s))
  {
    assert c * r <= c * s;
  }

  lemma CeilBounds(x: real, n: int)
    ensures x <= n as real ==> Ceil(x) <= n
    ensures x >= n as real ==> Ceil(x) >= n
  {
  }

  lemma CeilSide(x: real, n: nat)
    requires x >= 0.0
    ensures Ceil(x) >= 0
    ensures x <= n as real ==> Ceil(x) <= n
    ensures x >= n as real ==> Ceil(x) >= n
  {
    CeilBounds(x, 0);
    CeilBounds(x, n);
  }

  lemma ScaleLinear(c: real, ratio: real)
    requires c >= 0.0 && ratio >= 0.0
    ensures 0.0 <= Product(c, ratio)
    ensures ratio <= 1.0 ==> Product(c, ratio) <= c
    ensures ratio >= 1.0 ==> Product(c, ratio) >= c
  {
    if ratio <= 1.0 { assert c * ratio <= c * 1.0; }
  }

  /** The choice between holding and scaling, on plain numbers: `a` and `b` are the scaled
      counts for the ratios `r` and `s`. */
  lemma ChoiceMonotone(c: Word, r: real, s: real, a: nat, b: nat, p: Policy)
    requires p.min <= p.max && r <= s && a <= b
    requires r <= 1.0 ==> a <= c
    requires s >= 1.0 ==> c <= b
    ensures (if Abs(r - 1.0) <= DEFAULT_TOLERANCE then Clamp(c, p.min, p.max) else Clamp(a, p.min, p.max))
         <= (if Abs(s - 1.0) <= DEFAULT_TOLERANCE then Clamp(c, p.min, p.max) else Clamp(b, p.min, p.max))
  {
  }

  lemma HoldOrScaleMonotone(current: Word, r: real, s: real, p: Policy)
    requires p.min <= p.max && 0.0 <= r <= s
    ensures HoldOrScale(current, r, p) <= HoldOrScale(current, s, p)
  {
    CeilScaleMonotone(current as real, r, s);
    ChoiceMonotone(current, r, s, Scaled(current, r), Scaled(current, s), p);
  }

  lemma RatioMonotone(v: real, w: real, target: real)
    requires 0.0 <= v <= w && target > 0.0
    ensures 0.0 <= v / target <= w / target
  {
  }

  /** A larger metric never asks for fewer replicas, also across the edges of the deadband. */
  lemma DesiredMonotoneInMetric(current: Word, v: real, w: real, p: Policy)
    requires p.Valid() && 0.0 <= v <= w
    ensures Desired(current, v, p) <= Desired(current, w, p)
  {
    if current > 0 {
      RatioMonotone(v, w, p.target);
      HoldOrScaleMonotone(current, v / p.target, w / p.target, p);
    }
  }

  lemma MultiplyThrough(k: real, c: real, value: real, target: real)
    requires target > 0.0
    ensures k >= Product(c, value / target) <==> Product(k, target) >= Product(c, value)
  {
    var ratio := value / target;
    assert ratio * target == value;
    assert (c * ratio) * target == c * value;
    if k >= c * ratio { assert k * target >= (c * ratio) * target; }
    if k < c * ratio { assert k * target < (c * ratio) * target; }
  }

  predicate InDeadband(value: real, p: Policy)
    requires p.target > 0.0
  {
    Abs(value / p.target - 1.0) <= DEFAULT_TOLERANCE
  }

  lemma CeilIsLeast(x: real, k: int)
    ensures k as real >= x <==> k >= Ceil(x)
  {
  }

  /** The scaled count is the least that carries the whole load at no more than the target each. */
  lemma ScaledIsLeastSufficient(current: Word, value: real, target: real, k: nat)
    requires target > 0.0 && value >= 0.0
    ensures value / target >= 0.0
    ensures Product(k as real, target) >= Product(current as real, value) <==> k >= Scaled(current, value / target)
  {
    RatioMonotone(0.0, value, target);
    MultiplyThrough(k as real, current as real, value, target);
    CeilIsLeast(Product(current as real, value / target), k);
  }

  lemma ClampIsNearest(n: nat, lo: Word, hi: Word, k: Word)
    requires lo <= hi
    ensures Clamp(n, lo, hi) >= n || Clamp(n, lo, hi) == hi
    ensures lo <= k <= hi && k >= n ==> Clamp(n, lo, hi) <= k
  {
  }

  /** Outside the deadband the result is the least count within the bounds that carries the
      whole load at no more than the target each, or the upper bound if none does. */
  lemma DesiredIsLeastSufficient(current: Word, value: real, p: Policy, k: Word)
    requires p.Valid() && current > 0 && value >= 0.0 && !InDeadband(value, p)
    ensures var d := Desired(current, value, p);
            && (Product(d as real, p.target) >= Product(current as real, value) || d == p.max)
            && (p.min <= k <= p.max && Product(k as real, p.target) >= Product(current as real, value) ==> d <= k)
  {
    var d := Desired(current, value, p);
    ScaledIsLeastSufficient(current, value, p.target, d);
    ScaledIsLeastSufficient(current, value, p.target, k);
    ClampIsNearest(Scaled(current, value / p.target), p.min, p.max, k);
  }

  // ----- constant total load -----

  /** The metric is an average over the replicas, so under a constant total load it is the
      load's share per replica. */
  function Share(load: real, replicas: Word): real
    requires replicas > 0
  {
    load / replicas as real
  }

  /** Desired under a constant load, with the division cancelled; `need` is load / target. */
  function DesiredForNeed(c: Word, need: real, p: Policy): Word
    requires need >= 0.0
  {
    if 0.9 * c as real <= need <= 1.1 * c as real then Clamp(c, p.min, p.max)
    else Clamp(Ceil(need), p.min, p.max)
  }

  lemma RatioScales(c: real, load: real, target: real)
    requires c > 0.0 && target > 0.0 && load >= 0.0
    ensures load / c >= 0.0
    ensures load / target >= 0.0
    ensures Product(c, load / c / target) == load / target
  {
    var share := load / c;
    assert share * c == load;
    var ratio := share / target;
    assert ratio * target == share;
    assert (c * ratio) * target == load;
  }

  lemma DeadbandScales(c: real, ratio: real, need: real)
    requires c > 0.0 && Product(c, ratio) == need
    ensures Abs(ratio - 1.0) <= 0.1 <==> 0.9 * c <= need <= 1.1 * c
  {
    if ratio < 0.9 { assert c * ratio < c * 0.9; }
    if ratio >= 0.9 { assert c * ratio >= c * 0.9; }
    if ratio > 1.1 { assert c * ratio > c * 1.1; }
    if ratio <= 1.1 { assert c * ratio <= c * 1.1; }
  }

  lemma ScaledForNeed(c: Word, ratio: real, need: real)
    requires ratio >= 0.0 && Product(c as real, ratio) == need
    ensures Scaled(c, ratio) == Ceil(need)
  {
  }

  lemma HoldOrScaleForNeed(c: Word, ratio: real, need: real, p: Policy)
    requires c > 0 && ratio >= 0.0 && need >= 0.0 && Product(c as real, ratio) == need
    ensures HoldOrScale(c, ratio, p) == DesiredForNeed(c, need, p)
  {
    DeadbandScales(c as real, ratio, need);
    ScaledForNeed(c, ratio, need);
  }

  lemma DesiredUnderLoad(c: Word, load: real, p: Policy)
    requires p.target > 0.0 && c > 0 && load >= 0.0
    ensures Share(load, c) >= 0.0 && load / p.target >= 0.0
    ensures Desired(c, Share(load, c), p) == DesiredForNeed(c, load / p.target, p)
  {
    RatioScales(c as real, load, p.target);
    HoldOrScaleForNeed(c, Share(load, c) / p.target, load / p.target, p);
  }

  /** After one full (unlimited) step under a constant load the decision repeats itself:
      n = Desired(c) implies Desired(n) = n. */
  lemma OneStepFixedPoint(c: Word, load: real, p: Policy)
    requires p.Valid() && c > 0 && load >= 0.0
    ensures Share(load, c) >= 0.0
    ensures var n := Desired(c, Share(load, c), p);
            if n == 0 then Desired(0, 0.0, p) == 0
            else Share(load, n) >= 0.0 && Desired(n, Share(load, n), p) == n
  {
    DesiredUnderLoad(c, load, p);
    var need := load / p.target;
    var n := DesiredForNeed(c, need, p);
    if n > 0 {
      DesiredUnderLoad(n, load, p);
      CeilBounds(need, n);
    }
  }

  /** The heart of convergence: anywhere on the way from c to its desired count d, the new
      desired count lies on the rest of the way. */
  lemma DesiredStaysAhead(c: Word, x: Word, load: real, p: Policy)
    requires p.Valid() && c > 0 && x > 0 && load >= 0.0
    ensures Share(load, c) >= 0.0 && Share(load, x) >= 0.0
    ensures var d := Desired(c, Share(load, c), p);
            Between(c, x, d) ==> Between(x, Desired(x, Share(load, x), p), d)
  {
    DesiredUnderLoad(c, load, p);
    DesiredUnderLoad(x, load, p);
    CeilBounds(load / p.target, x);
    CeilBounds(load / p.target, c);
  }
}
