/** Which calls a pass makes, in which order, and what it reports, each read off the stack, the settings
    and the answers (internal/app/gitopsync/loop.go). */
module PassOrder {
  import opened Options
  import opened Words
  import opened Paths
  import opened Pipeline
  import PipelineResults
  import Compose
  import StatusStore
  import Intent
  import Drift

  predicate InRange(p: Pass, g: nat, d: nat) {
    g < |p.st.groups| && d < p.st.groups[g].files
  }

  // ----- which calls -----

  /** File, then stack, then global. */
  predicate IsPolicy(p: Pass, g: nat, policy: Policy)
    requires g < |p.st.groups|
  {
    if p.st.groups[g].policy != Unset then policy == p.st.groups[g].policy
    else if p.st.policy != Unset then policy == p.st.policy
    else policy == p.cfg.policy
  }

  /** What is deployed for a group: its documents in `-c` order, rotated if rotation is on. */
  predicate IsDeployed(p: Pass, g: nat, docs: seq<Document>)
    requires g < |p.st.groups|
  {
    && |docs| == p.st.groups[g].files
    && forall d :: 0 <= d < |docs| ==>
         && docs[d].services == p.env.rendered(g, d).services
         && docs[d].objects == if p.cfg.autoRotate then p.env.rotated(g, d) else p.env.rendered(g, d).objects
  }

  /** The configured files, or everything discovered in any document. */
  ghost predicate IsSecretFiles(p: Pass, files: seq<Path>) {
    if p.st.discovery then forall f :: f in files <==> exists g, d :: InRange(p, g, d) && f in p.env.secrets(g, d)
    else files == p.st.sopsFiles
  }

  /** The calls of a pass in which nothing fails. */
  ghost predicate Belongs(p: Pass, c: Call) {
    match c
    case Sync => true
    case ReadValues => p.st.valuesFile
    case Read(g, d) => InRange(p, g, d)
    case Render(g, d) => InRange(p, g, d)
    case Discover(g, d) => !p.cfg.dryRun && p.st.discovery && InRange(p, g, d)
    case Decrypt(files) => !p.cfg.dryRun && p.cfg.decrypter && files != [] && files == SecretFiles(p)
    case Rotate(g, d) => !p.cfg.dryRun && p.cfg.autoRotate && InRange(p, g, d)
    case Deploy(g, docs, policy) =>
      !p.cfg.dryRun && g < |p.st.groups| && IsDeployed(p, g, docs) && IsPolicy(p, g, policy)
  }

  /** (g1, d1) is (g, d) or comes after it. */
  predicate From(g: nat, d: nat, g1: nat, d1: nat) {
    g < g1 || (g == g1 && d <= d1)
  }

  lemma {:induction false} RendersIff(p: Pass, g: nat, d: nat, c: Call)
    ensures c in RenderFrom(p, g, d) <==> (c.Read? || c.Render?) && InRange(p, c.g, c.d) && From(g, d, c.g, c.d)
    decreases |p.st.groups| - g, if g < |p.st.groups| then p.st.groups[g].files - d else 0
  {
    if g < |p.st.groups| {
      if d >= p.st.groups[g].files { RendersIff(p, g + 1, 0, c); } else { RendersIff(p, g, d + 1, c); }
    }
  }

  lemma {:induction false} DiscoversIff(p: Pass, g: nat, d: nat, c: Call)
    ensures c in DiscoverFrom(p, g, d) <==> c.Discover? && InRange(p, c.g, c.d) && From(g, d, c.g, c.d)
    decreases |p.st.groups| - g, if g < |p.st.groups| then p.st.groups[g].files - d else 0
  {
    if g < |p.st.groups| {
      if d >= p.st.groups[g].files { DiscoversIff(p, g + 1, 0, c); } else { DiscoversIff(p, g, d + 1, c); }
    }
  }

  lemma {:induction false} FoundFromEarlier(p: Pass, g: nat, d: nat, g1: nat, d1: nat, f: Path)
    requires g1 < |p.st.groups| && d1 < p.st.groups[g1].files && f in p.env.secrets(g1, d1)
    requires g < g1 || (g == g1 && d <= d1)
    ensures f in FoundFrom(p, g, d)
    decreases |p.st.groups| - g, if g < |p.st.groups| then p.st.groups[g].files - d else 0
  {
    if d >= p.st.groups[g].files {
      FoundFromEarlier(p, g + 1, 0, g1, d1, f);
    } else if g < g1 || d < d1 {
      FoundFromEarlier(p, g, d + 1, g1, d1, f);
    }
  }

  lemma {:induction false} FoundSomewhere(p: Pass, g: nat, d: nat, f: Path) returns (g1: nat, d1: nat)
    requires f in FoundFrom(p, g, d)
    ensures InRange(p, g1, d1) && f in p.env.secrets(g1, d1)
    decreases |p.st.groups| - g, if g < |p.st.groups| then p.st.groups[g].files - d else 0
  {
    if d >= p.st.groups[g].files {
      g1, d1 := FoundSomewhere(p, g + 1, 0, f);
    } else if f in p.env.secrets(g, d) {
      g1, d1 := g, d;
    } else {
      g1, d1 := FoundSomewhere(p, g, d + 1, f);
    }
  }

  lemma FoundIff(p: Pass, f: Path)
    ensures f in FoundFrom(p, 0, 0) <==> exists g, d :: InRange(p, g, d) && f in p.env.secrets(g, d)
  {
    if f in FoundFrom(p, 0, 0) {
      var g, d := FoundSomewhere(p, 0, 0, f);
    }
    if g, d :| InRange(p, g, d) && f in p.env.secrets(g, d) { FoundFromEarlier(p, 0, 0, g, d, f); }
  }

  lemma {:induction false} RotatesIff(p: Pass, g: nat, d: nat, c: Call)
    requires g < |p.st.groups|
    ensures c in RotateFrom(p, g, d) <==> c.Rotate? && p.cfg.autoRotate && c.g == g && d <= c.d < p.st.groups[g].files
    decreases p.st.groups[g].files - d
  {
    if p.cfg.autoRotate && d < p.st.groups[g].files { RotatesIff(p, g, d + 1, c); }
  }

  lemma DeployIff(p: Pass, g: nat, docs: seq<Document>, policy: Policy)
    requires g < |p.st.groups|
    ensures docs == DeployedDocs(p, g) <==> IsDeployed(p, g, docs)
    ensures policy == EffectivePolicy(p, g) <==> IsPolicy(p, g, policy)
  {
  }

  lemma {:induction false} DeploysIff(p: Pass, g: nat, c: Call)
    ensures c in DeployFrom(p, g) <==>
              || (c.Rotate? && p.cfg.autoRotate && InRange(p, c.g, c.d) && g <= c.g)
              || (c.Deploy? && g <= c.g < |p.st.groups| && IsDeployed(p, c.g, c.docs) && IsPolicy(p, c.g, c.policy))
    decreases |p.st.groups| - g
  {
    if g < |p.st.groups| {
      RotatesIff(p, g, 0, c);
      DeploysIff(p, g + 1, c);
      if c.Deploy? && c.g == g { DeployIff(p, g, c.docs, c.policy); }
      var deploy := Deploy(g, DeployedDocs(p, g), EffectivePolicy(p, g));
      DeployIff(p, g, deploy.docs, deploy.policy);
      assert c in [deploy] <==> c == deploy;
    }
  }

  /** The schedule holds exactly these calls. */
  lemma ScheduleIff(p: Pass, c: Call)
    ensures c in Schedule(p) <==> Belongs(p, c)
    ensures IsSecretFiles(p, SecretFiles(p))
  {
    RendersIff(p, 0, 0, c);
    DiscoversIff(p, 0, 0, c);
    DeploysIff(p, 0, c);
    forall f ensures p.st.discovery ==> (f in SecretFiles(p) <==> exists g, d :: InRange(p, g, d) && f in p.env.secrets(g, d)) {
      FoundIff(p, f);
    }
    PreparationIff(p, c);
    UnsealingIff(p, c);
  }

  lemma PreparationIff(p: Pass, c: Call)
    ensures c in Preparation(p) <==> c == Sync || (c == ReadValues && p.st.valuesFile) || c in RenderFrom(p, 0, 0)
  {
  }

  lemma UnsealingIff(p: Pass, c: Call)
    ensures c in Unsealing(p) <==>
              || (p.st.discovery && c in DiscoverFrom(p, 0, 0))
              || (p.cfg.decrypter && SecretFiles(p) != [] && c == Decrypt(SecretFiles(p)))
  {
  }

  // ----- in which order -----

  function StageNumber(c: Call): nat {
    match c
    case Sync => 0
    case ReadValues => 1
    case Read(_, _) => 2
    case Render(_, _) => 2
    case Discover(_, _) => 3
    case Decrypt(_) => 4
    case Rotate(_, _) => 5
    case Deploy(_, _, _) => 5
  }

  /** Group by group, and in a group document by document; a document is read before it is rendered,
      and a group is deployed after its rotations. */
  predicate EarlierInStage(a: Call, b: Call) {
    if a.Sync? || a.ReadValues? || a.Decrypt? || b.Sync? || b.ReadValues? || b.Decrypt? then false
    else if a.g != b.g then a.g < b.g
    else if a.Deploy? || b.Deploy? then !a.Deploy?
    else a.d < b.d || (a.d == b.d && a.Read? && b.Render?)
  }

  predicate Earlier(a: Call, b: Call) {
    StageNumber(a) < StageNumber(b) || (StageNumber(a) == StageNumber(b) && EarlierInStage(a, b))
  }

  predicate Ordered(calls: seq<Call>) {
    forall i, j :: 0 <= i < j < |calls| ==> Earlier(calls[i], calls[j])
  }

  predicate AllEarlier(a: seq<Call>, b: seq<Call>) {
    forall x, y :: x in a && y in b ==> Earlier(x, y)
  }

  lemma OrderedAppend(a: seq<Call>, b: seq<Call>)
    requires Ordered(a) && Ordered(b) && AllEarlier(a, b)
    ensures Ordered(a + b)
  {
    forall i, j | 0 <= i < j < |a + b| ensures Earlier((a + b)[i], (a + b)[j]) {
      if i < |a| <= j { assert a[i] in a && b[j - |a|] in b; }
    }
  }

  lemma OrderedCons(x: Call, rest: seq<Call>)
    requires Ordered(rest) && forall y :: y in rest ==> Earlier(x, y)
    ensures Ordered([x] + rest)
  {
    OrderedAppend([x], rest);
  }

  lemma {:induction false} RendersOrdered(p: Pass, g: nat, d: nat)
    ensures Ordered(RenderFrom(p, g, d))
    decreases |p.st.groups| - g, if g < |p.st.groups| then p.st.groups[g].files - d else 0
  {
    if g < |p.st.groups| {
      if d >= p.st.groups[g].files {
        RendersOrdered(p, g + 1, 0);
      } else {
        RendersOrdered(p, g, d + 1);
        var rest := RenderFrom(p, g, d + 1);
        forall c | c in rest ensures Earlier(Render(g, d), c) && Earlier(Read(g, d), c) { RendersIff(p, g, d + 1, c); }
        OrderedCons(Render(g, d), rest);
        OrderedCons(Read(g, d), [Render(g, d)] + rest);
        assert RenderFrom(p, g, d) == [Read(g, d)] + ([Render(g, d)] + rest);
      }
    }
  }

  lemma {:induction false} DiscoversOrdered(p: Pass, g: nat, d: nat)
    ensures Ordered(DiscoverFrom(p, g, d))
    decreases |p.st.groups| - g, if g < |p.st.groups| then p.st.groups[g].files - d else 0
  {
    if g < |p.st.groups| {
      if d >= p.st.groups[g].files {
        DiscoversOrdered(p, g + 1, 0);
      } else {
        DiscoversOrdered(p, g, d + 1);
        forall c | c in DiscoverFrom(p, g, d + 1) ensures Earlier(Discover(g, d), c) { DiscoversIff(p, g, d + 1, c); }
        OrderedCons(Discover(g, d), DiscoverFrom(p, g, d + 1));
      }
    }
  }

  lemma {:induction false} RotatesOrdered(p: Pass, g: nat, d: nat)
    requires g < |p.st.groups|
    ensures Ordered(RotateFrom(p, g, d))
    decreases p.st.groups[g].files - d
  {
    if p.cfg.autoRotate && d < p.st.groups[g].files {
      RotatesOrdered(p, g, d + 1);
      forall c | c in RotateFrom(p, g, d + 1) ensures Earlier(Rotate(g, d), c) { RotatesIff(p, g, d + 1, c); }
      OrderedCons(Rotate(g, d), RotateFrom(p, g, d + 1));
    }
  }

  lemma {:induction false} DeploysOrdered(p: Pass, g: nat)
    ensures Ordered(DeployFrom(p, g))
    decreases |p.st.groups| - g
  {
    if g < |p.st.groups| {
      var rotations, deploy, rest := RotateFrom(p, g, 0), Deploy(g, DeployedDocs(p, g), EffectivePolicy(p, g)), DeployFrom(p, g + 1);
      RotatesOrdered(p, g, 0);
      DeploysOrdered(p, g + 1);
      forall c | c in rest ensures (c.Rotate? || c.Deploy?) && g < c.g { DeploysIff(p, g + 1, c); }
      OrderedCons(deploy, rest);
      forall x, y | x in rotations && y in [deploy] + rest ensures Earlier(x, y) { RotatesIff(p, g, 0, x); }
      OrderedAppend(rotations, [deploy] + rest);
      assert DeployFrom(p, g) == rotations + ([deploy] + rest);
    }
  }

  lemma PreparationOrdered(p: Pass)
    ensures Ordered(Preparation(p))
  {
    var values := if p.st.valuesFile then [ReadValues] else [];
    RendersOrdered(p, 0, 0);
    forall x, y | x in [Sync] + values && y in RenderFrom(p, 0, 0) ensures Earlier(x, y) { RendersIff(p, 0, 0, y); }
    OrderedAppend([Sync], values);
    OrderedAppend([Sync] + values, RenderFrom(p, 0, 0));
  }

  lemma UnsealingOrdered(p: Pass)
    ensures Ordered(Unsealing(p))
  {
    var discovers := if p.st.discovery then DiscoverFrom(p, 0, 0) else [];
    var decrypts := if p.cfg.decrypter && SecretFiles(p) != [] then [Decrypt(SecretFiles(p))] else [];
    DiscoversOrdered(p, 0, 0);
    forall x | x in discovers ensures x.Discover? { DiscoversIff(p, 0, 0, x); }
    assert forall y :: y in decrypts ==> y.Decrypt?;
    OrderedAppend(discovers, decrypts);
    assert Unsealing(p) == discovers + decrypts;
  }

  lemma StagesOf(p: Pass, c: Call)
    ensures c in Preparation(p) ==> StageNumber(c) <= 2
    ensures c in Unsealing(p) ==> 3 <= StageNumber(c) <= 4
    ensures c in DeployFrom(p, 0) ==> StageNumber(c) == 5
  {
    PreparationIff(p, c);
    UnsealingIff(p, c);
    RendersIff(p, 0, 0, c);
    DiscoversIff(p, 0, 0, c);
    DeploysIff(p, 0, c);
  }

  /** The schedule is in order, so no call is in it twice. */
  lemma ScheduleOrdered(p: Pass)
    ensures Ordered(Schedule(p))
  {
    PreparationOrdered(p);
    UnsealingOrdered(p);
    DeploysOrdered(p, 0);
    if p.cfg.dryRun {
      assert Schedule(p) == Preparation(p);
    } else {
      forall x, y | x in Unsealing(p) && y in DeployFrom(p, 0) ensures Earlier(x, y) { StagesOf(p, x); StagesOf(p, y); }
      OrderedAppend(Unsealing(p), DeployFrom(p, 0));
      forall x, y | x in Preparation(p) && y in Unsealing(p) + DeployFrom(p, 0) ensures Earlier(x, y) { StagesOf(p, x); StagesOf(p, y); }
      OrderedAppend(Preparation(p), Unsealing(p) + DeployFrom(p, 0));
    }
  }

  /** The calls of a pass, in words of its inputs alone: only those that belong to it, in order, and
      everything earlier than a call that was made was made too, and went well. */
  lemma CallsMade(p: Pass, k: nat)
    requires k < |Ran(Schedule(p), p.env.ok)|
    ensures var calls := Ran(Schedule(p), p.env.ok);
            && Ordered(calls) && Belongs(p, calls[k])
            && forall c :: Belongs(p, c) && Earlier(c, calls[k]) ==> exists j :: 0 <= j < k && calls[j] == c && p.env.ok(c)
  {
    var all, calls := Schedule(p), Ran(Schedule(p), p.env.ok);
    RanIsPrefix(all, p.env.ok);
    RanEndsAtFailure(all, p.env.ok);
    ScheduleOrdered(p);
    assert forall i :: 0 <= i < |calls| ==> calls[i] == all[i];
    ScheduleIff(p, calls[k]);
    forall c | Belongs(p, c) && Earlier(c, calls[k]) ensures exists j :: 0 <= j < k && calls[j] == c && p.env.ok(c) {
      ScheduleIff(p, c);
      var j := PlaceOf(all, k, c);
      assert calls[j] == c;
    }
  }

  /** What is earlier than the k-th call of an ordered list stands before it. */
  lemma PlaceOf(all: seq<Call>, k: nat, c: Call) returns (j: nat)
    requires Ordered(all) && k < |all| && c in all && Earlier(c, all[k])
    ensures j < k && all[j] == c
  {
    j :| 0 <= j < |all| && all[j] == c;
    if j > k { assert Earlier(all[k], all[j]); }
    NotBothEarlier(all[k], all[j]);
  }

  lemma NotBothEarlier(a: Call, b: Call)
    ensures !(Earlier(a, b) && Earlier(b, a)) && !Earlier(a, a)
  {
  }

  /** If the pass is not stopped, every call that belongs to it is made. */
  lemma AllCallsMade(p: Pass, c: Call)
    requires Belongs(p, c) && forall other :: Belongs(p, other) ==> p.env.ok(other)
    ensures c in Ran(Schedule(p), p.env.ok)
  {
    ScheduleIff(p, c);
    forall other | other in Schedule(p) ensures p.env.ok(other) { ScheduleIff(p, other); }
    FirstFailedMeaning(Schedule(p), p.env.ok);
    PipelineResults.RanIsAll(Schedule(p), p.env.ok);
  }

  /** What each deploy of a pass receives, and that with rotation on every document of the group was
      rotated before it. */
  lemma DeployReceives(p: Pass, k: nat)
    requires k < |Ran(Schedule(p), p.env.ok)| && Ran(Schedule(p), p.env.ok)[k].Deploy?
    ensures var calls := Ran(Schedule(p), p.env.ok);
            var g, docs := calls[k].g, calls[k].docs;
            && g < |p.st.groups| && |docs| == p.st.groups[g].files && IsPolicy(p, g, calls[k].policy)
            && (forall d :: 0 <= d < |docs| ==>
                  && docs[d].services == p.env.rendered(g, d).services
                  && docs[d].objects == if p.cfg.autoRotate then p.env.rotated(g, d) else p.env.rendered(g, d).objects)
            && (p.cfg.autoRotate ==> forall d :: 0 <= d < |docs| ==>
                  exists j :: 0 <= j < k && calls[j] == Rotate(g, d) && p.env.ok(calls[j]))
  {
    var calls := Ran(Schedule(p), p.env.ok);
    CallsMade(p, k);
    var g, docs := calls[k].g, calls[k].docs;
    if p.cfg.autoRotate {
      forall d | 0 <= d < |docs| ensures exists j :: 0 <= j < k && calls[j] == Rotate(g, d) && p.env.ok(calls[j]) {
        assert Belongs(p, Rotate(g, d)) && Earlier(Rotate(g, d), calls[k]);
      }
    }
  }

  // ----- what is reported and remembered -----

  /** The stage shown for the call that ended the pass. */
  predicate IsStage(stage: StatusStore.Stage, c: Call, panicked: bool) {
    stage == if panicked then StatusStore.Panicked
             else if c.Sync? then StatusStore.AtGit
             else if c.ReadValues? || c.Read? || c.Render? then StatusStore.AtRender
             else if c.Discover? || c.Decrypt? then StatusStore.AtSecrets
             else if c.Rotate? then StatusStore.AtRotate
             else StatusStore.AtDeploy
  }

  /** The recorded status: the revision once git was synced, the stage of the last call if it failed,
      and what the loop remembers of the stack. */
  lemma ResultMeans(m: Memory, p: Pass, now: int)
    ensures var r, calls, after := Result(m, p, now), Ran(Schedule(p), p.env.ok), Remembered(m, p);
            && calls != [] && r.lastSync == now
            && r.revision == (if p.env.ok(Sync) then Some(p.env.revision) else None)
            && (r.stage == None <==> forall c :: Belongs(p, c) ==> p.env.ok(c))
            && (r.stage.Some? ==> var c := calls[|calls| - 1]; !p.env.ok(c) && IsStage(r.stage.value, c, p.env.panics(c)))
            && r.deployCount == (if p.st.name in after.count then after.count[p.st.name] else 0)
            && r.desired == (if p.st.name in after.desired then after.desired[p.st.name] else None)
  {
    FirstFailedMeaning(Schedule(p), p.env.ok);
    RanEndsAtFailure(Schedule(p), p.env.ok);
    forall c ensures c in Schedule(p) <==> Belongs(p, c) { ScheduleIff(p, c); }
    assert Schedule(p) != [];
  }

  /** The memory: the desired counts once everything was rendered, and the revision and the verdict
      when every group was deployed or a deploy returned an error. */
  lemma RememberedMeans(m: Memory, p: Pass)
    ensures var after, calls, name := Remembered(m, p), Ran(Schedule(p), p.env.ok), p.st.name;
            var last := calls[|calls| - 1];
            var rendered := forall c :: Belongs(p, c) && StageNumber(c) <= 2 ==> p.env.ok(c);
            var deployed := !p.cfg.dryRun && forall c :: Belongs(p, c) ==> p.env.ok(c);
            var refused := last.Deploy? && !p.env.ok(last) && !p.env.panics(last);
            && after.desired == (if rendered then m.desired[name := Desired(p)] else m.desired)
            && after.rev == (if deployed || refused then m.rev[name := p.env.revision] else m.rev)
            && after.fine == (if deployed then m.fine[name := true] else if refused then m.fine[name := false] else m.fine)
  {
    EndOfPass(p);
    MemorizeMeans(m, p, FirstFailed(Preparation(p), p.env.ok).None?, FirstFailed(Schedule(p), p.env.ok));
    PipelineResults.ScheduleFails(p);
  }

  lemma MemorizeMeans(m: Memory, p: Pass, prepared: bool, failed: Option<Call>)
    ensures var after, name := Memorize(m, p, prepared, failed), p.st.name;
            var acted := prepared && !p.cfg.dryRun;
            var deployed := acted && failed.None?;
            var refused := acted && failed.Some? && failed.value.Deploy? && !p.env.panics(failed.value);
            && after.desired == (if prepared then m.desired[name := Desired(p)] else m.desired)
            && after.rev == (if deployed || refused then m.rev[name := p.env.revision] else m.rev)
            && after.fine == (if deployed then m.fine[name := true] else if refused then m.fine[name := false] else m.fine)
  {
    MarkedMeans(if prepared then m.(desired := m.desired[p.st.name := Desired(p)]) else m, p, failed);
  }

  lemma MarkedMeans(m: Memory, p: Pass, failed: Option<Call>)
    ensures var after, name := Marked(m, p, failed), p.st.name;
            var refused := failed.Some? && failed.value.Deploy? && !p.env.panics(failed.value);
            && after.desired == m.desired
            && after.rev == (if failed.None? || refused then m.rev[name := p.env.revision] else m.rev)
            && after.fine == (if failed.None? then m.fine[name := true] else if refused then m.fine[name := false] else m.fine)
  {
  }

  lemma EndOfPass(p: Pass)
    ensures Ran(Schedule(p), p.env.ok) != []
    ensures FirstFailed(Preparation(p), p.env.ok).None? <==> forall c :: Belongs(p, c) && StageNumber(c) <= 2 ==> p.env.ok(c)
    ensures FirstFailed(Schedule(p), p.env.ok).None? <==> forall c :: Belongs(p, c) ==> p.env.ok(c)
    ensures var last := Ran(Schedule(p), p.env.ok)[|Ran(Schedule(p), p.env.ok)| - 1];
            FirstFailed(Schedule(p), p.env.ok) == if p.env.ok(last) then None else Some(last)
    ensures FirstFailed(Schedule(p), p.env.ok).Some? && FirstFailed(Schedule(p), p.env.ok).value.Deploy? ==>
              FirstFailed(Preparation(p), p.env.ok).None? && !p.cfg.dryRun
  {
    FirstFailedMeaning(Preparation(p), p.env.ok);
    FirstFailedMeaning(Schedule(p), p.env.ok);
    RanEndsAtFailure(Schedule(p), p.env.ok);
    PipelineResults.ScheduleFails(p);
    forall c
      ensures c in Schedule(p) <==> Belongs(p, c)
      ensures c in Preparation(p) <==> Belongs(p, c) && StageNumber(c) <= 2
      ensures c in Preparation(p) ==> !c.Deploy?
    {
      ScheduleIff(p, c);
      PreparationIff(p, c);
      RendersIff(p, 0, 0, c);
    }
    assert Schedule(p) != [];
    var calls := Ran(Schedule(p), p.env.ok);
    assert AllOk(Schedule(p), p.env.ok) ==> calls == Schedule(p) && calls[|calls| - 1] in Schedule(p);
  }

  predicate LastHas(snaps: seq<Counts>, g: nat, name: Compose.Name, n: Word)
    requires g < |snaps|
  {
    Get(snaps[g], name) == Some(n) && forall h :: g < h < |snaps| ==> name !in snaps[h]
  }

  /** The union of the groups' snapshots: the last group that has the service. */
  lemma {:induction false} UnionMeans(snaps: seq<Counts>, name: Compose.Name, n: Word)
    ensures Get(Union(snaps), name) == Some(n)
            <==> exists g :: 0 <= g < |snaps| && LastHas(snaps, g, name, n)
  {
    if snaps != [] {
      var k := |snaps| - 1;
      UnionMeans(snaps[..k], name, n);
      forall g | 0 <= g < k ensures LastHas(snaps, g, name, n) <==> LastHas(snaps[..k], g, name, n) && name !in snaps[k] {
      }
      assert LastHas(snaps, k, name, n) <==> Get(snaps[k], name) == Some(n);
    }
  }

  /** The services of the rendered documents of a group. */
  function Documents(p: Pass, g: nat): seq<Compose.Doc>
    requires g < |p.st.groups|
  {
    seq(p.st.groups[g].files, d requires 0 <= d => p.env.rendered(g, d).services)
  }

  /** The group has the service in its drift snapshot, with the count. */
  ghost predicate Watches(p: Pass, g: nat, name: Compose.Name, n: Word)
    requires g < |p.st.groups|
  {
    && Intent.HasCount(Documents(p, g), name, n) && !Intent.HasMode(Documents(p, g), name, "global")
    && !Intent.Says(Documents(p, g), name, "swarm.autoscaler.enabled", "true")
  }

  lemma WatchesIff(p: Pass, g: nat, name: Compose.Name, n: Word)
    requires g < |p.st.groups|
    ensures Watches(p, g, name, n) <==> Get(Drift.Snapshot(Documents(p, g)), name) == Some(n)
  {
    Intent.SnapshotIff(Documents(p, g), name, n);
  }

  lemma SnapshotOf(p: Pass, g: nat)
    requires g < |p.st.groups|
    ensures Snapshots(p)[g] == Drift.Snapshot(Documents(p, g))
  {
    assert Documents(p, g) == ServicesOf(RenderedDocs(p, g));
  }

  /** The desired counts a pass leaves for the drift check: per service, those of the last group that
      watches it. */
  lemma DesiredMeans(p: Pass, name: Compose.Name, n: Word)
    ensures Desired(p).Some? && Get(Desired(p).value, name) == Some(n) <==>
              exists g :: 0 <= g < |p.st.groups| && LastWatches(p, g, name, n)
  {
    var snaps := Snapshots(p);
    UnionMeans(snaps, name, n);
    forall g | 0 <= g < |p.st.groups| ensures LastWatches(p, g, name, n) <==> LastHas(snaps, g, name, n) {
      LastWatchesIff(p, g, name, n);
    }
    if name in Union(snaps) { SomethingIn(Union(snaps), name); }
  }

  ghost predicate LastWatches(p: Pass, g: nat, name: Compose.Name, n: Word)
    requires g < |p.st.groups|
  {
    Watches(p, g, name, n) && forall h :: g < h < |p.st.groups| ==> Silent(p, h, name)
  }

  /** The group watches no count of the service. */
  ghost predicate Silent(p: Pass, g: nat, name: Compose.Name)
    requires g < |p.st.groups|
  {
    forall n: Word :: !Watches(p, g, name, n)
  }

  lemma SilentIff(p: Pass, g: nat, name: Compose.Name)
    requires g < |p.st.groups|
    ensures name !in Snapshots(p)[g] <==> Silent(p, g, name)
  {
    SnapshotOf(p, g);
    var own := Get(Drift.Snapshot(Documents(p, g)), name);
    forall other: Word ensures Watches(p, g, name, other) <==> own == Some(other) { WatchesIff(p, g, name, other); }
    if own.Some? { assert Watches(p, g, name, own.value); }
  }

  lemma LastWatchesIff(p: Pass, g: nat, name: Compose.Name, n: Word)
    requires g < |p.st.groups|
    ensures LastWatches(p, g, name, n) <==> LastHas(Snapshots(p), g, name, n)
  {
    SnapshotOf(p, g);
    WatchesIff(p, g, name, n);
    forall h | 0 <= h < |p.st.groups| ensures name !in Snapshots(p)[h] <==> Silent(p, h, name) {
      SilentIff(p, h, name);
    }
  }

  lemma SomethingIn(m: Counts, name: Compose.Name)
    requires name in m
    ensures |m| > 0
  {
    assert name in m.Keys;
  }

  // ----- the statuses of the groups -----

  lemma GroupCallsIff(p: Pass, g: nat, c: Call)
    requires g < |p.st.groups| && !p.cfg.dryRun
    ensures c in GroupCalls(p, g) <==> (c.Rotate? || c.Deploy?) && c.g == g && Belongs(p, c)
  {
    RotatesIff(p, g, 0, c);
    var deploy := Deploy(g, DeployedDocs(p, g), EffectivePolicy(p, g));
    DeployIff(p, g, deploy.docs, deploy.policy);
    if c.Deploy? && c.g == g { DeployIff(p, g, c.docs, c.policy); }
    assert c in [deploy] <==> c == deploy;
  }

  lemma GroupOkIff(p: Pass, g: nat)
    requires g < |p.st.groups| && !p.cfg.dryRun
    ensures GroupOk(p, g) <==> forall c :: Belongs(p, c) && (c.Rotate? || c.Deploy?) && c.g == g ==> p.env.ok(c)
  {
    FirstFailedMeaning(GroupCalls(p, g), p.env.ok);
    forall c ensures c in GroupCalls(p, g) <==> Belongs(p, c) && (c.Rotate? || c.Deploy?) && c.g == g { GroupCallsIff(p, g, c); }
  }

  /** Up to the deploys nothing fails, and it is no dry run. */
  ghost predicate Reached(p: Pass) {
    !p.cfg.dryRun && forall c :: Belongs(p, c) && StageNumber(c) < 5 ==> p.env.ok(c)
  }

  lemma ReachedIff(p: Pass)
    ensures DeployReached(p) <==> Reached(p)
  {
    FirstFailedMeaning(Preparation(p), p.env.ok);
    FirstFailedMeaning(Unsealing(p), p.env.ok);
    if !p.cfg.dryRun {
      forall c ensures c in Preparation(p) || c in Unsealing(p) <==> Belongs(p, c) && StageNumber(c) < 5 {
        ScheduleIff(p, c);
        StagesOf(p, c);
      }
    }
  }

  /** Where the deploys end, if one of their calls fails: in the group of the failing call, with all
      calls of the groups before it made and ok. */
  lemma FailsInGroup(p: Pass) returns (last: Call)
    requires Reached(p) && PipelineResults.FirstBad(p, 0) < |p.st.groups|
    ensures (last.Rotate? || last.Deploy?) && last.g == PipelineResults.FirstBad(p, 0)
    ensures var calls := Ran(Schedule(p), p.env.ok); calls != [] && calls[|calls| - 1] == last && !p.env.ok(last)
    ensures FirstFailed(DeployFrom(p, 0), p.env.ok) == Some(last) == FirstFailed(GroupCalls(p, last.g), p.env.ok)
  {
    ReachedIff(p);
    var k := PipelineResults.FirstBad(p, 0);
    PipelineResults.DeployFailsAtFirstBad(p, 0);
    PipelineResults.ScheduleFails(p);
    FirstFailedMeaning(GroupCalls(p, k), p.env.ok);
    last := FirstFailed(GroupCalls(p, k), p.env.ok).value;
    GroupCallsIff(p, k, last);
    EndOfPass(p);
  }

  /** The status of a group once the deploys are reached: ok if its calls and those of the groups
      before it were; the group of the failing call has its error, and the later ones are skipped;
      after a panic both are left unmarked.  Before that there are none. */
  lemma StatusesMean(p: Pass, i: nat)
    requires i < |p.st.groups|
    ensures !Reached(p) ==> Files(p) == []
    ensures Reached(p) ==>
              && |Files(p)| == |p.st.groups|
              && if forall c :: Belongs(p, c) && (c.Rotate? || c.Deploy?) && c.g <= i ==> p.env.ok(c)
                 then Files(p)[i] == StatusStore.Deployed
                 else var calls := Ran(Schedule(p), p.env.ok);
                      calls != [] && IsOutcome(Files(p)[i], p, calls[|calls| - 1], i)
  {
    ReachedIff(p);
    if Reached(p) {
      var k := PipelineResults.FirstBad(p, 0);
      forall g | 0 <= g < |p.st.groups|
        ensures GroupOk(p, g) <==> forall c :: Belongs(p, c) && (c.Rotate? || c.Deploy?) && c.g == g ==> p.env.ok(c)
      {
        GroupOkIff(p, g);
      }
      assert OkBefore(p, i) <==> i <= k by { if i > k { assert !GroupOk(p, k); } }
      if i < k {
        forall c | Belongs(p, c) && (c.Rotate? || c.Deploy?) && c.g <= i ensures p.env.ok(c) {
          assert GroupOk(p, c.g);
        }
      } else {
        var last := FailsInGroup(p);
        GroupCallsIff(p, k, last);
        FirstFailedMeaning(GroupCalls(p, k), p.env.ok);
      }
    }
  }

  predicate IsOutcome(o: StatusStore.FileOutcome, p: Pass, last: Call, i: nat) {
    && (last.Rotate? || last.Deploy?)
    && o == if p.env.panics(last) then StatusStore.Pending
            else if last.g == i then StatusStore.Failed(p.env.error(last))
            else StatusStore.Skipped
  }
}
