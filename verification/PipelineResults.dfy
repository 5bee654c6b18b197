/** What a pass over one stack guarantees (internal/app/gitopsync/loop.go). */
module PipelineResults {
  import opened Options
  import opened Words
  import opened Pipeline
  import StatusStore

  // ----- statuses -----

  /** The first group that is not deployed, from group g on. */
  function FirstBad(p: Pass, g: nat): (k: nat)
    requires g <= |p.st.groups|
    ensures g <= k <= |p.st.groups| && (forall f :: g <= f < k ==> GroupOk(p, f))
    ensures k < |p.st.groups| ==> !GroupOk(p, k)
    decreases |p.st.groups| - g
  {
    if g == |p.st.groups| || !GroupOk(p, g) then g else FirstBad(p, g + 1)
  }

  lemma {:induction false} DeployFailsAtFirstBad(p: Pass, g: nat)
    requires g <= |p.st.groups|
    ensures FirstFailed(DeployFrom(p, g), p.env.ok)
              == if FirstBad(p, g) == |p.st.groups| then None else FirstFailed(GroupCalls(p, FirstBad(p, g)), p.env.ok)
    decreases |p.st.groups| - g
  {
    if g < |p.st.groups| {
      RunAppend(GroupCalls(p, g), DeployFrom(p, g + 1), p.env.ok);
      DeployFailsAtFirstBad(p, g + 1);
    }
  }

  lemma ScheduleFails(p: Pass)
    ensures FirstFailed(Schedule(p), p.env.ok) ==
              if FirstFailed(Preparation(p), p.env.ok).Some? || p.cfg.dryRun then FirstFailed(Preparation(p), p.env.ok)
              else if FirstFailed(Unsealing(p), p.env.ok).Some? then FirstFailed(Unsealing(p), p.env.ok)
              else FirstFailed(DeployFrom(p, 0), p.env.ok)
  {
    RunAppend(Preparation(p), if p.cfg.dryRun then [] else Unsealing(p) + DeployFrom(p, 0), p.env.ok);
    RunAppend(Unsealing(p), DeployFrom(p, 0), p.env.ok);
  }

  /** Once the deploys are reached, the statuses read ok, ..., ok, or ok, ..., ok, failed,
      skipped, ..., skipped; the failed group holds the error of the call that ended the pass.
      If that call panicked the groups that are not ok read as never touched. */
  lemma StatusesAreOkFailedSkipped(p: Pass) returns (k: nat)
    requires DeployReached(p)
    ensures k == FirstBad(p, 0) && k <= |Files(p)| == |p.st.groups|
    ensures forall i :: 0 <= i < k ==> Files(p)[i] == StatusStore.Deployed
    ensures var failed := FirstFailed(Schedule(p), p.env.ok);
            && (k == |Files(p)| <==> failed.None?)
            && (k < |Files(p)| && !Panics(p, failed) ==> Files(p)[k] == StatusStore.Failed(p.env.error(failed.value)))
            && forall i :: k <= i < |Files(p)| ==>
                 (if Panics(p, failed) then Files(p)[i] == StatusStore.Pending else i > k ==> Files(p)[i] == StatusStore.Skipped)
  {
    k := FirstBad(p, 0);
    ScheduleFails(p);
    DeployFailsAtFirstBad(p, 0);
    forall i | 0 <= i < |p.st.groups| ensures OkBefore(p, i) <==> i <= k {
      if i > k { assert !GroupOk(p, k); }
    }
  }

  /** A pass counts as a deploy exactly when it reached the deploys and every group is ok. */
  lemma SucceedsIffAllOk(p: Pass)
    ensures Succeeds(p) <==> DeployReached(p) && forall i :: 0 <= i < |Files(p)| ==> Files(p)[i] == StatusStore.Deployed
  {
    FirstFailedMeaning(Schedule(p), p.env.ok);
    ScheduleFails(p);
    if DeployReached(p) {
      var k := StatusesAreOkFailedSkipped(p);
      if k < |Files(p)| { assert Files(p)[k] != StatusStore.Deployed; }
    }
  }

  // ----- deploys -----

  function Deploys(calls: seq<Call>): seq<Call> {
    if calls == [] then [] else (if calls[0].Deploy? then [calls[0]] else []) + Deploys(calls[1..])
  }

  lemma {:induction false} DeploysAppend(a: seq<Call>, b: seq<Call>)
    ensures Deploys(a + b) == Deploys(a) + Deploys(b)
  {
    if a == [] {
      assert a + b == b;
    } else {
      assert (a + b)[1..] == a[1..] + b;
      DeploysAppend(a[1..], b);
      var first := if a[0].Deploy? then [a[0]] else [];
      assert first + (Deploys(a[1..]) + Deploys(b)) == first + Deploys(a[1..]) + Deploys(b);
    }
  }

  lemma {:induction false} NoDeploys(calls: seq<Call>)
    requires forall i :: 0 <= i < |calls| ==> !calls[i].Deploy?
    ensures Deploys(calls) == []
  {
    if calls != [] { NoDeploys(calls[1..]); }
  }

  /** The deploys of the groups from g to k, in list order, each with all its documents. */
  function DeployCalls(p: Pass, g: nat, k: nat): seq<Call>
    requires g <= k <= |p.st.groups|
    decreases k - g
  {
    if g == k then [] else [Deploy(g, DeployedDocs(p, g), EffectivePolicy(p, g))] + DeployCalls(p, g + 1, k)
  }

  /** How far the deploys got: the ok groups, and the failing one if its deploy failed. */
  function Attempted(p: Pass, g: nat): (k: nat)
    requires g <= |p.st.groups|
    ensures g <= k <= |p.st.groups|
  {
    var k := FirstBad(p, g);
    if k < |p.st.groups| && FirstFailed(RotateFrom(p, k, 0), p.env.ok).None? then k + 1 else k
  }

  lemma {:induction false} RotationsOnly(p: Pass, g: nat, d: nat)
    requires g < |p.st.groups|
    ensures forall i :: 0 <= i < |RotateFrom(p, g, d)| ==> RotateFrom(p, g, d)[i].Rotate?
    decreases p.st.groups[g].files - d
  {
    if p.cfg.autoRotate && d < p.st.groups[g].files { RotationsOnly(p, g, d + 1); }
  }

  lemma {:induction false} RanIsAll(calls: seq<Call>, ok: Call -> bool)
    requires FirstFailed(calls, ok).None?
    ensures Ran(calls, ok) == calls
  {
    if calls != [] { RanIsAll(calls[1..], ok); }
  }

  lemma DeploysOfGroup(p: Pass, g: nat)
    requires g < |p.st.groups|
    ensures Deploys(Ran(GroupCalls(p, g), p.env.ok))
              == if FirstFailed(RotateFrom(p, g, 0), p.env.ok).None? then DeployCalls(p, g, g + 1) else []
  {
    var rotations, deploy := RotateFrom(p, g, 0), Deploy(g, DeployedDocs(p, g), EffectivePolicy(p, g));
    RunAppend(rotations, [deploy], p.env.ok);
    RotationsOnly(p, g, 0);
    RanIsPrefix(rotations, p.env.ok);
    assert forall i :: 0 <= i < |Ran(rotations, p.env.ok)| ==> Ran(rotations, p.env.ok)[i] == rotations[i];
    NoDeploys(Ran(rotations, p.env.ok));
    assert Ran([deploy], p.env.ok) == [deploy] && [deploy][1..] == [];
    DeploysAppend(Ran(rotations, p.env.ok), [deploy]);
  }

  lemma OneDeployCall(p: Pass, g: nat)
    requires g < |p.st.groups|
    ensures DeployCalls(p, g, g + 1) == [Deploy(g, DeployedDocs(p, g), EffectivePolicy(p, g))]
  {
    assert DeployCalls(p, g + 1, g + 1) == [];
  }

  lemma AttemptedNext(p: Pass, g: nat)
    requires g < |p.st.groups|
    ensures Attempted(p, g) == if GroupOk(p, g) then Attempted(p, g + 1)
                               else if FirstFailed(RotateFrom(p, g, 0), p.env.ok).None? then g + 1 else g
  {
  }

  lemma GroupOkRotates(p: Pass, g: nat)
    requires g < |p.st.groups| && GroupOk(p, g)
    ensures FirstFailed(RotateFrom(p, g, 0), p.env.ok).None?
  {
    RunAppend(RotateFrom(p, g, 0), [Deploy(g, DeployedDocs(p, g), EffectivePolicy(p, g))], p.env.ok);
  }

  lemma DeploysOfFirst(p: Pass, g: nat)
    requires g < |p.st.groups|
    ensures Deploys(Ran(DeployFrom(p, g), p.env.ok))
              == Deploys(Ran(GroupCalls(p, g), p.env.ok))
                 + if GroupOk(p, g) then Deploys(Ran(DeployFrom(p, g + 1), p.env.ok)) else []
  {
    var group, rest, ok := GroupCalls(p, g), DeployFrom(p, g + 1), p.env.ok;
    assert DeployFrom(p, g) == group + rest;
    RunAppend(group, rest, ok);
    DeploysAppend(Ran(group, ok), Ran(rest, ok));
  }

  lemma DeploysOfFailed(p: Pass, g: nat)
    requires g < |p.st.groups| && !GroupOk(p, g)
    ensures Deploys(Ran(DeployFrom(p, g), p.env.ok)) == DeployCalls(p, g, Attempted(p, g))
  {
    DeploysOfFirst(p, g);
    DeploysOfGroup(p, g);
    AttemptedNext(p, g);
  }

  lemma DeploysOfOk(p: Pass, g: nat, rest: seq<Call>)
    requires g < |p.st.groups| && GroupOk(p, g) && Deploys(Ran(DeployFrom(p, g + 1), p.env.ok)) == rest
    ensures Deploys(Ran(DeployFrom(p, g), p.env.ok)) == [Deploy(g, DeployedDocs(p, g), EffectivePolicy(p, g))] + rest
  {
    DeploysOfFirst(p, g);
    DeploysOfGroup(p, g);
    GroupOkRotates(p, g);
    OneDeployCall(p, g);
  }

  lemma {:induction false} DeploysFrom(p: Pass, g: nat)
    requires g <= |p.st.groups|
    ensures Deploys(Ran(DeployFrom(p, g), p.env.ok)) == DeployCalls(p, g, Attempted(p, g))
    decreases |p.st.groups| - g
  {
    if g < |p.st.groups| {
      if GroupOk(p, g) {
        DeploysFrom(p, g + 1);
        DeploysOfOk(p, g, DeployCalls(p, g + 1, Attempted(p, g + 1)));
        AttemptedNext(p, g);
      } else {
        DeploysOfFailed(p, g);
      }
    }
  }

  // ----- the order of the effects -----

  /** The stage of the pipeline a call belongs to. */
  function Rank(c: Call): nat {
    match c
    case Sync => 0
    case ReadValues => 1
    case Read(_, _) => 2
    case Render(_, _) => 2
    case Discover(_, _) => 3
    case Decrypt(_) => 4
    case Rotate(_, _) => 5
    case Deploy(_, _, _) => 5
  }

  predicate InOrder(calls: seq<Call>, low: nat, high: nat) {
    && (forall i, j :: 0 <= i < j < |calls| ==> Rank(calls[i]) <= Rank(calls[j]))
    && (forall i :: 0 <= i < |calls| ==> low <= Rank(calls[i]) <= high)
  }

  lemma InOrderAppend(a: seq<Call>, b: seq<Call>, low: nat, m: nat, n: nat, high: nat)
    requires InOrder(a, low, m) && InOrder(b, n, high) && low <= n && m <= n && m <= high
    ensures InOrder(a + b, low, high)
  {
  }

  lemma {:induction false} RendersInOrder(p: Pass, g: nat, d: nat)
    ensures InOrder(RenderFrom(p, g, d), 2, 2)
    decreases |p.st.groups| - g, if g < |p.st.groups| then p.st.groups[g].files - d else 0
  {
    if g < |p.st.groups| {
      if d >= p.st.groups[g].files { RendersInOrder(p, g + 1, 0); } else { RendersInOrder(p, g, d + 1); }
    }
  }

  lemma {:induction false} DiscoversInOrder(p: Pass, g: nat, d: nat)
    ensures InOrder(DiscoverFrom(p, g, d), 3, 3)
    decreases |p.st.groups| - g, if g < |p.st.groups| then p.st.groups[g].files - d else 0
  {
    if g < |p.st.groups| {
      if d >= p.st.groups[g].files { DiscoversInOrder(p, g + 1, 0); } else { DiscoversInOrder(p, g, d + 1); }
    }
  }

  lemma GroupInOrder(p: Pass, g: nat)
    requires g < |p.st.groups|
    ensures InOrder(GroupCalls(p, g), 5, 5)
  {
    RotationsOnly(p, g, 0);
    InOrderAppend(RotateFrom(p, g, 0), [Deploy(g, DeployedDocs(p, g), EffectivePolicy(p, g))], 5, 5, 5, 5);
  }

  lemma {:induction false} DeploysInOrder(p: Pass, g: nat)
    ensures InOrder(DeployFrom(p, g), 5, 5)
    decreases |p.st.groups| - g
  {
    if g < |p.st.groups| {
      GroupInOrder(p, g);
      DeploysInOrder(p, g + 1);
      InOrderAppend(GroupCalls(p, g), DeployFrom(p, g + 1), 5, 5, 5, 5);
    }
  }

  lemma PreparationInOrder(p: Pass)
    ensures InOrder(Preparation(p), 0, 2)
  {
    RendersInOrder(p, 0, 0);
    var values := if p.st.valuesFile then [ReadValues] else [];
    InOrderAppend([Sync], values, 0, 0, 1, 1);
    InOrderAppend([Sync] + values, RenderFrom(p, 0, 0), 0, 1, 2, 2);
  }

  lemma UnsealingInOrder(p: Pass)
    ensures InOrder(Unsealing(p), 3, 4)
  {
    DiscoversInOrder(p, 0, 0);
    InOrderAppend(if p.st.discovery then DiscoverFrom(p, 0, 0) else [],
                  if p.cfg.decrypter && SecretFiles(p) != [] then [Decrypt(SecretFiles(p))] else [], 3, 3, 4, 4);
  }

  /** Every document is rendered before anything is decrypted, and decryption comes before any
      rotation or deploy; a dry run makes no call beyond the rendering. */
  lemma EffectsInOrder(p: Pass)
    ensures InOrder(Ran(Schedule(p), p.env.ok), 0, if p.cfg.dryRun then 2 else 5)
  {
    PreparationInOrder(p);
    UnsealingInOrder(p);
    DeploysInOrder(p, 0);
    if p.cfg.dryRun {
      assert Schedule(p) == Preparation(p);
    } else {
      InOrderAppend(Unsealing(p), DeployFrom(p, 0), 3, 4, 5, 5);
      InOrderAppend(Preparation(p), Unsealing(p) + DeployFrom(p, 0), 0, 2, 3, 5);
    }
    RanIsPrefix(Schedule(p), p.env.ok);
    PrefixInOrder(Ran(Schedule(p), p.env.ok), Schedule(p), 0, if p.cfg.dryRun then 2 else 5);
  }

  lemma PrefixInOrder(a: seq<Call>, b: seq<Call>, low: nat, high: nat)
    requires a <= b && InOrder(b, low, high)
    ensures InOrder(a, low, high)
  {
    assert forall i :: 0 <= i < |a| ==> a[i] == b[i];
  }

  lemma LowRanksNeverDeploy(calls: seq<Call>, low: nat, high: nat, ok: Call -> bool)
    requires InOrder(calls, low, high) && high < 5
    ensures Deploys(Ran(calls, ok)) == []
  {
    RanIsPrefix(calls, ok);
    PrefixInOrder(Ran(calls, ok), calls, low, high);
    NoDeploys(Ran(calls, ok));
  }

  /** Two parts of a schedule, of which the first makes no deploy. */
  lemma DeploysOfSecond(a: seq<Call>, b: seq<Call>, ok: Call -> bool)
    requires Deploys(Ran(a, ok)) == []
    ensures Deploys(Ran(a + b, ok)) == if FirstFailed(a, ok).Some? then [] else Deploys(Ran(b, ok))
  {
    RunAppend(a, b, ok);
    DeploysAppend(Ran(a, ok), Ran(b, ok));
  }

  lemma DeploysComeLast(p: Pass)
    ensures Deploys(Ran(Schedule(p), p.env.ok)) == if DeployReached(p) then Deploys(Ran(DeployFrom(p, 0), p.env.ok)) else []
  {
    PreparationInOrder(p);
    LowRanksNeverDeploy(Preparation(p), 0, 2, p.env.ok);
    if p.cfg.dryRun {
      assert Preparation(p) + [] == Preparation(p);
    } else {
      UnsealingInOrder(p);
      LowRanksNeverDeploy(Unsealing(p), 3, 4, p.env.ok);
      DeploysOfSecond(Preparation(p), Unsealing(p) + DeployFrom(p, 0), p.env.ok);
      DeploysOfSecond(Unsealing(p), DeployFrom(p, 0), p.env.ok);
    }
  }

  /** A group fails in its deploy exactly when its rotations went through. */
  lemma FailsInDeploy(p: Pass, g: nat)
    requires g < |p.st.groups| && !GroupOk(p, g)
    ensures FirstFailed(GroupCalls(p, g), p.env.ok).value.Deploy? <==> FirstFailed(RotateFrom(p, g, 0), p.env.ok).None?
  {
    var rotations, deploy := RotateFrom(p, g, 0), Deploy(g, DeployedDocs(p, g), EffectivePolicy(p, g));
    RunAppend(rotations, [deploy], p.env.ok);
    RotationsOnly(p, g, 0);
    FirstFailedMeaning(rotations, p.env.ok);
    FirstFailedMeaning([deploy], p.env.ok);
  }

  /** The groups on which Deploy was called. */
  lemma AttemptedMeaning(p: Pass, i: nat)
    requires DeployReached(p) && i < |p.st.groups|
    ensures i < Attempted(p, 0) <==>
              || i < FirstBad(p, 0)
              || (i == FirstBad(p, 0) && FirstFailed(Schedule(p), p.env.ok).Some? && FirstFailed(Schedule(p), p.env.ok).value.Deploy?)
  {
    ScheduleFails(p);
    DeployFailsAtFirstBad(p, 0);
    var k := FirstBad(p, 0);
    if k < |p.st.groups| { FailsInDeploy(p, k); }
  }

  /** Deploy was called, in list order, on exactly the ok groups, and on the failing one if it
      failed in its deploy, also by a panic; not at all unless the deploys were reached. */
  lemma DeploysAreTheOkGroups(p: Pass)
    ensures Deploys(Ran(Schedule(p), p.env.ok)) == if DeployReached(p) then DeployCalls(p, 0, Attempted(p, 0)) else []
    ensures DeployReached(p) ==>
              forall i :: 0 <= i < |Files(p)| ==>
                (i < Attempted(p, 0) <==>
                   || Files(p)[i] == StatusStore.Deployed
                   || (i == FirstBad(p, 0) && FirstFailed(Schedule(p), p.env.ok).Some? && FirstFailed(Schedule(p), p.env.ok).value.Deploy?))
  {
    DeploysComeLast(p);
    if DeployReached(p) {
      DeploysFrom(p, 0);
      var k := StatusesAreOkFailedSkipped(p);
      forall i | 0 <= i < |Files(p)|
        ensures i < Attempted(p, 0) <==>
                  || Files(p)[i] == StatusStore.Deployed
                  || (i == FirstBad(p, 0) && FirstFailed(Schedule(p), p.env.ok).Some? && FirstFailed(Schedule(p), p.env.ok).value.Deploy?)
      {
        AttemptedMeaning(p, i);
      }
    }
  }

  // ----- many passes -----

  /** The loop's memory after some passes, of any stacks in any order. */
  function After(passes: seq<Pass>): Memory {
    if passes == [] then Memory(map[], map[], map[], map[])
    else Remembered(After(passes[..|passes| - 1]), passes[|passes| - 1])
  }

  function Count(passes: seq<Pass>, name: nat): nat {
    if passes == [] then 0
    else
      var p := passes[|passes| - 1];
      Count(passes[..|passes| - 1], name) + if p.st.name == name && Succeeds(p) then 1 else 0
  }

  /** A stack's deploy count is the number of its passes with every group ok (modulo 2^64). */
  lemma {:induction false} DeployCountIsExact(passes: seq<Pass>, name: nat)
    ensures CountOf(After(passes), name) == Count(passes, name) % WORD_MODULUS
  {
    if passes != [] {
      var front, p := passes[..|passes| - 1], passes[|passes| - 1];
      DeployCountIsExact(front, name);
      assert After(passes) == Remembered(After(front), p);
      CountMoves(After(front), p, name);
      BumpModulo(Count(front, name));
    }
  }

  lemma BumpModulo(n: nat)
    ensures Add(n % WORD_MODULUS, 1) == (n + 1) % WORD_MODULUS
  {
  }

  lemma CountMoves(m: Memory, p: Pass, name: nat)
    ensures CountOf(Remembered(m, p), name)
              == if p.st.name == name && Succeeds(p) then Add(CountOf(m, name), 1) else CountOf(m, name)
  {
    FirstFailedMeaning(Schedule(p), p.env.ok);
    ScheduleFails(p);
    MemorizeCount(m, p, FirstFailed(Preparation(p), p.env.ok).None?, FirstFailed(Schedule(p), p.env.ok), name);
  }

  lemma MemorizeCount(m: Memory, p: Pass, prepared: bool, failed: Option<Call>, name: nat)
    ensures CountOf(Memorize(m, p, prepared, failed), name)
              == if p.st.name == name && prepared && !p.cfg.dryRun && failed.None? then Add(CountOf(m, name), 1) else CountOf(m, name)
  {
  }
}
